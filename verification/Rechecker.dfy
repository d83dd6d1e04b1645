/**
 The adaptive re-checker (`src/scheduler.rs`).

 The loop is cut at its awaits: `Enroll`, `Start` and `Settle` are what runs between two of them, and
 the pool may change in any way from one to the next. Times and durations are seconds, as `real`.
 */
module Rechecker {
  import opened Wrappers
  import opened Proxies
  import opened Selection
  import opened Pools
  import opened Reals

  /** `0.5^x` for `x >= 0`; all that is used of it is that it falls from 1 and stays positive. */
  type Halving = h: real -> real | Halves(h) witness (x: real) => 1.0

  ghost predicate Halves(h: real -> real) {
    && h(0.0) == 1.0
    && (forall x :: x >= 0.0 ==> 0.0 < h(x) <= 1.0)
    && (forall x, y :: 0.0 <= x <= y ==> h(y) <= h(x))
  }

  datatype Config = Config(minInterval: real, maxInterval: real, ratePerSec: real, halflife: real, halving: Halving) {
    ghost predicate Durations() {
      minInterval >= 0.0 && maxInterval >= 0.0 && halflife >= 0.0
    }

    /** Seconds between two starts. */
    function Gap(): (gap: real)
      ensures 0.0 < gap <= 1000.0
      ensures ratePerSec >= 0.001 ==> gap * ratePerSec == 1.0
    {
      var rate := if ratePerSec > 0.001 then ratePerSec else 0.001;
      1.0 / rate
    }
  }

  const EVICT_FLOOR := 0.02

  function Max(x: real, y: real): real {
    if x > y then x else y
  }

  function Clamp(x: real): real {
    if x < 0.0 then 0.0 else if x > 1.0 then 1.0 else x
  }

  /** `next_interval`. */
  function NextInterval(ewma: real, cfg: Config): real {
    cfg.minInterval + Clamp(ewma) * (cfg.maxInterval - cfg.minInterval)
  }

  /** `decayed_score`. */
  function DecayedScore(ewma: real, latency: real, age: real, cfg: Config): real
    requires age >= 0.0
  {
    var base := Clamp(ewma) / (1.0 + if latency > 0.0 then latency else 0.0);
    if cfg.halflife > 0.0 then base * cfg.halving(age / cfg.halflife) else base
  }

  predicate ShouldRetry(ewma: real, latency: real, age: real, cfg: Config)
    requires age >= 0.0
  {
    DecayedScore(ewma, latency, age, cfg) >= EVICT_FLOOR
  }

  /** The steadier a proxy, the longer until it is looked at again, between the two bounds. */
  lemma IntervalGrowsWithStability(a: real, b: real, cfg: Config)
    requires a <= b && cfg.minInterval <= cfg.maxInterval
    ensures cfg.minInterval <= NextInterval(a, cfg) <= NextInterval(b, cfg) <= cfg.maxInterval
  {
    var x, y, span := Clamp(a), Clamp(b), cfg.maxInterval - cfg.minInterval;
    assert 0.0 <= x <= y <= 1.0;
    Scale(0.0, x, span);
    Scale(x, y, span);
    Scale(y, 1.0, span);
    assert NextInterval(a, cfg) == cfg.minInterval + x * span && NextInterval(b, cfg) == cfg.minInterval + y * span;
  }

  lemma Quotient(x: real, d: real)
    requires x >= 0.0 && d >= 1.0
    ensures 0.0 <= x / d <= x
  {
    var q := x / d;
    assert q * d == x;
    if q < 0.0 {
      Scale(q, 0.0, d);
    } else {
      Scale(1.0, d, q);
    }
  }

  /** Latency and age only ever take from the score. */
  lemma ScoreAtMostEwma(ewma: real, latency: real, age: real, cfg: Config)
    requires 0.0 <= ewma <= 1.0 && age >= 0.0
    ensures 0.0 <= DecayedScore(ewma, latency, age, cfg) <= ewma
  {
    var d := 1.0 + if latency > 0.0 then latency else 0.0;
    Quotient(ewma, d);
    var base := ewma / d;
    if cfg.halflife > 0.0 {
      assert age / cfg.halflife >= 0.0;
      var h := cfg.halving(age / cfg.halflife);
      Scale(0.0, base, h);
      Scale(h, 1.0, base);
    }
  }

  /** Of two proxies with the same success rate, the slower or longer unseen one never outlasts the other. */
  lemma ScoreFallsWithAge(ewma: real, latency: real, younger: real, older: real, cfg: Config)
    requires 0.0 <= younger <= older && 0.0 <= ewma <= 1.0
    ensures DecayedScore(ewma, latency, older, cfg) <= DecayedScore(ewma, latency, younger, cfg)
  {
    var d := 1.0 + if latency > 0.0 then latency else 0.0;
    Quotient(ewma, d);
    var base := ewma / d;
    if cfg.halflife > 0.0 {
      OverPositive(younger, older, cfg.halflife);
      Scale(cfg.halving(older / cfg.halflife), cfg.halving(younger / cfg.halflife), base);
    }
  }

  lemma OverPositive(x: real, y: real, d: real)
    requires 0.0 <= x <= y && d > 0.0
    ensures 0.0 <= x / d <= y / d
  {
    assert x / d * d == x && y / d * d == y;
    if x / d > y / d {
      Scale(y / d, x / d, d);
    }
  }

  // ----- One address through many re-checks -----

  type Age = age: real | age >= 0.0 witness 0.0

  /** What one finished re-check says; the age is the time since the address last worked. */
  datatype Outcome = Outcome(working: bool, latency: real, age: Age)

  /** The success rate of an address after one re-check; none once it is evicted. */
  function Fold(e: real, working: bool): real {
    0.3 * (if working then 1.0 else 0.0) + 0.7 * e
  }

  function After(e: Option<real>, o: Outcome, cfg: Config): Option<real> {
    if e.None? then None
    else if o.working || ShouldRetry(Fold(e.value, false), o.latency, o.age, cfg) then Some(Fold(e.value, o.working))
    else None
  }

  function AfterAll(e: Option<real>, run: seq<Outcome>, cfg: Config): Option<real> {
    if run == [] then e else After(AfterAll(e, run[..|run| - 1], cfg), run[|run| - 1], cfg)
  }

  /** A tracked rate after n failures is 0.7^n of what it was, and above the floor. */
  lemma {:induction false} FailuresDecay(e: real, run: seq<Outcome>, cfg: Config)
    requires 0.0 < e <= 1.0
    requires forall i :: 0 <= i < |run| ==> !run[i].working
    ensures var r := AfterAll(Some(e), run, cfg);
      r.Some? ==> r.value == Power(|run|) * e && (run != [] ==> r.value >= EVICT_FLOOR)
  {
    if run != [] {
      var init, last := run[..|run| - 1], run[|run| - 1];
      FailuresDecay(e, init, cfg);
      var before := AfterAll(Some(e), init, cfg);
      if before.Some? {
        PowerTimes(|init|, e);
        DecayStep(|init|, e, before.value);
        FoldStaysInRange(before.value);
        ScoreAtMostEwma(Fold(before.value, false), last.latency, last.age, cfg);
      }
    }
  }

  lemma FoldOfFailure(x: real)
    ensures Fold(x, false) == 0.7 * x
  {
  }

  lemma DecayStep(n: nat, e: real, x: real)
    requires x == Power(n) * e
    ensures Fold(x, false) == Power(n + 1) * e
  {
    FoldOfFailure(x);
    Regroup(Power(n), Power(n + 1), e, x);
  }

  lemma FoldStaysInRange(e: real)
    requires 0.0 <= e <= 1.0
    ensures 0.0 <= Fold(e, false) <= 1.0
  {
  }

  lemma TenthPowers()
    ensures Power(10) == 0.0282475249
    ensures Power(11) == 0.01977326743
  {
    assert Power(4) == 0.2401;
    assert Power(8) == 0.05764801;
  }

  /** Whatever the half-life, the latencies and the ages: eleven failures in a row evict. */
  lemma ElevenFailuresEvict(e: real, run: seq<Outcome>, cfg: Config)
    requires 0.0 < e <= 1.0 && |run| == 11
    requires forall i :: 0 <= i < |run| ==> !run[i].working
    ensures AfterAll(Some(e), run, cfg).None?
  {
    FailuresDecay(e, run, cfg);
    TenthPowers();
    Scale(e, 1.0, Power(11));
  }

  lemma OneMoreOutcome(e: Option<real>, run: seq<Outcome>, o: Outcome, cfg: Config)
    ensures AfterAll(e, run + [o], cfg) == After(AfterAll(e, run, cfg), o, cfg)
  {
    assert (run + [o])[..|run|] == run;
  }

  lemma {:induction false} AfterAllSplits(e: Option<real>, front: seq<Outcome>, back: seq<Outcome>, cfg: Config)
    ensures AfterAll(e, front + back, cfg) == AfterAll(AfterAll(e, front, cfg), back, cfg)
  {
    if back == [] {
      assert front + back == front;
    } else {
      var init, last := back[..|back| - 1], back[|back| - 1];
      AfterAllSplits(e, front, init, cfg);
      OneMoreOutcome(e, front + init, last, cfg);
      assert front + back == front + init + [last];
    }
  }

  lemma {:induction false} EvictedForGood(run: seq<Outcome>, cfg: Config)
    ensures AfterAll(None, run, cfg).None?
  {
    if run != [] {
      EvictedForGood(run[..|run| - 1], cfg);
    }
  }

  lemma FoldStaysARate(e: real, working: bool)
    requires 0.0 < e <= 1.0
    ensures 0.0 < Fold(e, working) <= 1.0
  {
  }

  lemma {:induction false} RateStaysARate(run: seq<Outcome>, cfg: Config)
    ensures var r := AfterAll(Some(1.0), run, cfg); r.Some? ==> 0.0 < r.value <= 1.0
  {
    if run != [] {
      var before := AfterAll(Some(1.0), run[..|run| - 1], cfg);
      RateStaysARate(run[..|run| - 1], cfg);
      if before.Some? {
        FoldStaysARate(before.value, run[|run| - 1].working);
      }
    }
  }

  ghost predicate EndsInFailures(run: seq<Outcome>, n: nat) {
    n <= |run| && forall i :: |run| - n <= i < |run| ==> !run[i].working
  }

  /** Whatever came before them. */
  lemma ElevenInARowEvict(run: seq<Outcome>, cfg: Config)
    requires EndsInFailures(run, 11)
    ensures AfterAll(Some(1.0), run, cfg).None?
  {
    var front, back := run[..|run| - 11], run[|run| - 11..];
    assert run == front + back;
    AfterAllSplits(Some(1.0), front, back, cfg);
    var e := AfterAll(Some(1.0), front, cfg);
    if e.None? {
      EvictedForGood(back, cfg);
    } else {
      RateStaysARate(front, cfg);
      ElevenFailuresEvict(e.value, back, cfg);
    }
  }

  /** Without decay and latency the count of failures alone decides, and exactly ten are survived. */
  lemma {:induction false} SurvivesExactlyTen(run: seq<Outcome>, cfg: Config)
    requires cfg.halflife <= 0.0
    requires forall i :: 0 <= i < |run| ==> !run[i].working && run[i].latency == 0.0
    ensures AfterAll(Some(1.0), run, cfg).Some? <==> |run| <= 10
  {
    if run != [] {
      var init, last := run[..|run| - 1], run[|run| - 1];
      SurvivesExactlyTen(init, cfg);
      FailuresDecay(1.0, init, cfg);
      var before := AfterAll(Some(1.0), init, cfg);
      if before.Some? {
        PowerRange(|run|);
        assert DecayedScore(Fold(before.value, false), 0.0, last.age, cfg) == Power(|run|);
        PowerFalls(|run|, 10);
        PowerFalls(11, |run|);
        TenthPowers();
      }
    }
  }

  lemma {:induction false} PowerFalls(m: nat, n: nat)
    ensures m <= n ==> Power(n) <= Power(m)
  {
    if m < n {
      PowerRange(n - 1);
      PowerFalls(m, n - 1);
    }
  }

  // ----- The start-rate ceiling -----

  ghost predicate Spaced(starts: seq<real>, gap: real) {
    forall i :: 0 < i < |starts| ==> starts[i - 1] + gap <= starts[i]
  }

  lemma {:induction false} SpacedApart(starts: seq<real>, gap: real, i: nat, j: nat)
    requires Spaced(starts, gap) && i <= j < |starts|
    ensures starts[j] - starts[i] >= (j - i) as real * gap
    decreases j
  {
    if i < j {
      SpacedApart(starts, gap, i, j - 1);
    }
  }

  /** So many gaps fit into the window. */
  lemma GapsFit(n: nat, gap: real, window: real)
    requires gap > 0.0 && n as real * gap <= window
    ensures n <= (window / gap).Floor
  {
    var w := window / gap;
    assert w * gap == window;
    if w < n as real {
      ScaleStrictly(w, n as real, gap);
    }
  }

  /** A window of length T holds at most floor(T / gap) + 1 starts. */
  lemma WindowBound(starts: seq<real>, gap: real, i: nat, j: nat, window: real)
    requires Spaced(starts, gap) && gap > 0.0
    requires i <= j < |starts| && starts[j] - starts[i] <= window
    ensures j - i + 1 <= (window / gap).Floor + 1
  {
    SpacedApart(starts, gap, i, j);
    GapsFit(j - i, gap, window);
  }

  // ----- The loop's state -----

  datatype Scheduled = Scheduled(due: real, key: Address)

  function Keys(heap: seq<Scheduled>): set<Address> {
    set s | s in heap :: s.key
  }

  ghost predicate Distinct(heap: seq<Scheduled>) {
    forall i, j :: 0 <= i < j < |heap| ==> heap[i].key != heap[j].key
  }

  /** What the environment may do to the pool while the loop sleeps or probes. */
  datatype Edit =
    | Inserted(proxy: Proxy)
    | Deleted(addr: Address)
    | Drawn(scheme: Scheme, client: ClientKey, now: int, draw: nat)
    | GivenBack(proxy: Proxy, blockedUntil: Option<int>)

  /** The edit may put the address into the pool. */
  predicate Brings(e: Edit, k: Address) {
    (e.Inserted? || e.GivenBack?) && e.proxy.addr == k
  }

  ghost predicate Brought(edits: seq<Edit>, k: Address) {
    exists i :: 0 <= i < |edits| && Brings(edits[i], k)
  }

  /** What edits that do not bring the address leave of it: no more than there was, and nothing once deleted. */
  ghost predicate Fades(before: seq<Pooled>, after: seq<Pooled>, edits: seq<Edit>, k: Address) {
    !Brought(edits, k) ==> Count(after, k) <= Count(before, k) && (Deleted(k) in edits ==> Count(after, k) == 0)
  }

  lemma FadesOn(before: seq<Pooled>, mid: seq<Pooled>, after: seq<Pooled>, front: seq<Edit>, back: seq<Edit>,
                k: Address)
    requires Fades(before, mid, front, k) && Fades(mid, after, back, k)
    ensures Fades(before, after, front + back, k)
  {
    if !Brought(front + back, k) {
      BroughtInPart(front, back, k);
    }
  }

  lemma FadesOnAll(before: seq<Pooled>, mid: seq<Pooled>, after: seq<Pooled>, front: seq<Edit>, back: seq<Edit>)
    requires forall k :: Fades(before, mid, front, k)
    requires forall k :: Fades(mid, after, back, k)
    ensures forall k :: Fades(before, after, front + back, k)
  {
    forall k ensures Fades(before, after, front + back, k) {
      FadesOn(before, mid, after, front, back, k);
    }
  }

  /** One pass of the loop, with all that happens around it; `probing` happens also when nothing is probed. */
  datatype Turn = Turn(
    before: seq<Edit>,
    enrolledAt: real,
    asleep: seq<Edit>,
    startedAt: real,
    probing: seq<Edit>,
    probed: Proxy,
    working: bool,
    settledAt: real,
    jitter: nat -> real)
  {
    /** What happens to the pool before the job is popped. */
    function Early(): seq<Edit> {
      before + asleep
    }

    function Edits(): seq<Edit> {
      Early() + probing
    }
  }

  /** One finished re-check. */
  datatype Settlement = Settlement(key: Address, outcome: Outcome)

  ghost function OutcomesOf(done: seq<Settlement>, k: Address): seq<Outcome> {
    if done == [] then []
    else
      var last := done[|done| - 1];
      OutcomesOf(done[..|done| - 1], k) + if last.key == k then [last.outcome] else []
  }

  /** What is known of an address: the outcomes since it was enrolled. */
  ghost function Past(history: map<Address, seq<Outcome>>, k: Address): seq<Outcome> {
    if k in history then history[k] else []
  }

  /** Some entry is due. */
  ghost predicate SomeDue(heap: seq<Scheduled>, now: real) {
    exists i :: 0 <= i < |heap| && heap[i].due <= now
  }

  /** A newcomer's first re-check is one jitter away. */
  ghost predicate Staggered(s: Scheduled, now: real, jitter: nat -> real) {
    exists n :: s.due == now + jitter(n)
  }

  /** Starts keep their distance, the next one included. */
  ghost predicate Paced(starts: seq<real>, nextStart: real, gap: real) {
    Spaced(starts, gap) && (starts != [] ==> starts[|starts| - 1] + gap <= nextStart)
  }

  /** `saturating_duration_since`. */
  function Elapsed(since: real, now: real): (age: real)
    ensures age >= 0.0
  {
    if now > since then now - since else 0.0
  }

  /** `Pool::addrs`. The source collects a set; an address that is there twice is enrolled once either way. */
  function Addrs(pool: seq<Pooled>): (addrs: seq<Address>)
    ensures |addrs| == |pool| && forall i :: 0 <= i < |pool| ==> addrs[i] == pool[i].proxy.addr
  {
    seq(|pool|, i requires 0 <= i < |pool| => pool[i].proxy.addr)
  }

  /** What the loop knows of the addresses; the outcomes are those since the address was enrolled. */
  datatype Records = Records(
    heap: seq<Scheduled>,
    ewma: map<Address, real>,
    lastOk: map<Address, real>,
    retrying: set<Address>,
    history: map<Address, seq<Outcome>>)
  {
    /**
     Every tracked address is scheduled exactly once, or being probed; the maps agree; what is being
     retried is tracked; and every rate is the fold of the outcomes.
     */
    ghost predicate Tracks(probing: Option<Address>, cfg: Config) {
      && Distinct(heap)
      && (forall k :: Placed(k, probing))
      && lastOk.Keys == history.Keys == ewma.Keys
      && retrying <= ewma.Keys
      && (forall k :: Rated(k, cfg))
    }

    ghost predicate Placed(k: Address, probing: Option<Address>) {
      && (k in ewma <==> k in Keys(heap) || probing == Some(k))
      && (probing == Some(k) ==> k !in Keys(heap))
    }

    ghost predicate Rated(k: Address, cfg: Config) {
      k in ewma ==> k in history && 0.0 < ewma[k] <= 1.0 && AfterAll(Some(1.0), history[k], cfg) == Some(ewma[k])
    }

    function Enrolled(key: Address, due: real, now: real): Records {
      Records(heap + [Scheduled(due, key)], ewma[key := 1.0], lastOk[key := now], retrying, history[key := []])
    }

    function Popped(top: nat): Records
      requires top < |heap|
    {
      this.(heap := heap[..top] + heap[top + 1..])
    }

    function Dropped(key: Address): Records {
      Records(heap, ewma - {key}, lastOk - {key}, retrying - {key}, history - {key})
    }

    function Kept(key: Address, e: real, now: real, due: real, o: Outcome): Records
      requires key in history
    {
      Records(heap + [Scheduled(due, key)], ewma[key := e], lastOk[key := now], retrying - {key},
              history[key := history[key] + [o]])
    }

    function Retried(key: Address, e: real, due: real, o: Outcome): Records
      requires key in history
    {
      Records(heap + [Scheduled(due, key)], ewma[key := e], lastOk, retrying + {key},
              history[key := history[key] + [o]])
    }

    /** What a finished re-check makes of the records: the address is kept, retried or evicted. */
    function Settled(key: Address, o: Outcome, now: real, jitter: real, cfg: Config): Records
      requires key in ewma && key in history
    {
      match After(Some(ewma[key]), o, cfg)
      case None => Dropped(key)
      case Some(e) =>
        var due := now + NextInterval(e, cfg) + jitter;
        if o.working then Kept(key, e, now, due, o) else Retried(key, e, due, o)
    }

    lemma EnrolledTracks(key: Address, due: real, now: real, cfg: Config)
      requires Tracks(None, cfg) && key !in ewma
      ensures Enrolled(key, due, now).Tracks(None, cfg)
    {
      var r := Enrolled(key, due, now);
      KeysPush(heap, Scheduled(due, key));
      assert Placed(key, None);
      forall k ensures r.Placed(k, None) && r.Rated(k, cfg) {
        assert Placed(k, None) && Rated(k, cfg);
      }
    }

    lemma PoppedTracks(top: nat, cfg: Config)
      requires Tracks(None, cfg) && top < |heap|
      ensures Popped(top).Tracks(Some(heap[top].key), cfg) && heap[top].key in ewma
    {
      var r := Popped(top);
      KeysRemove(heap, top);
      assert Placed(heap[top].key, None);
      forall k ensures r.Placed(k, Some(heap[top].key)) && r.Rated(k, cfg) {
        assert Placed(k, None) && Rated(k, cfg);
      }
    }

    lemma DroppedTracks(key: Address, cfg: Config)
      requires Tracks(Some(key), cfg)
      ensures Dropped(key).Tracks(None, cfg)
    {
      var r := Dropped(key);
      forall k ensures r.Placed(k, None) && r.Rated(k, cfg) {
        assert Placed(k, Some(key)) && Rated(k, cfg);
      }
    }

    /** The new rate is the fold of the outcomes with the new one, and so the others stay what they were. */
    lemma RatedAfter(key: Address, o: Outcome, e: real, r: Records, cfg: Config)
      requires Tracks(Some(key), cfg) && key in ewma && After(Some(ewma[key]), o, cfg) == Some(e)
      requires r.ewma == ewma[key := e] && r.history == history[key := history[key] + [o]]
      ensures forall k :: r.Rated(k, cfg)
    {
      forall k ensures r.Rated(k, cfg) {
        assert Rated(k, cfg);
        if k == key {
          OneMoreOutcome(Some(1.0), history[key], o, cfg);
          FoldStaysARate(ewma[key], o.working);
        }
      }
    }

    lemma BackInPlace(key: Address, due: real, r: Records, cfg: Config)
      requires Tracks(Some(key), cfg) && key in ewma
      requires r.heap == heap + [Scheduled(due, key)] && r.ewma.Keys == ewma.Keys
      ensures Distinct(r.heap) && forall k :: r.Placed(k, None)
    {
      KeysPush(heap, Scheduled(due, key));
      assert Placed(key, Some(key));
      forall k ensures r.Placed(k, None) {
        assert Placed(k, Some(key));
      }
    }

    lemma KeptTracks(key: Address, e: real, now: real, due: real, o: Outcome, cfg: Config)
      requires Tracks(Some(key), cfg) && key in ewma && After(Some(ewma[key]), o, cfg) == Some(e)
      ensures Kept(key, e, now, due, o).Tracks(None, cfg)
    {
      var r := Kept(key, e, now, due, o);
      BackInPlace(key, due, r, cfg);
      RatedAfter(key, o, e, r, cfg);
    }

    lemma RetriedTracks(key: Address, e: real, due: real, o: Outcome, cfg: Config)
      requires Tracks(Some(key), cfg) && key in ewma && After(Some(ewma[key]), o, cfg) == Some(e)
      ensures Retried(key, e, due, o).Tracks(None, cfg)
    {
      var r := Retried(key, e, due, o);
      BackInPlace(key, due, r, cfg);
      RatedAfter(key, o, e, r, cfg);
    }
  }

  /** After an enrollment: those that were tracked are as they were, newcomers are healthy, with nothing on record. */
  ghost predicate Extends(a: Records, b: Records, now: real, jitter: nat -> real) {
    && a.heap <= b.heap && b.retrying == a.retrying && a.ewma.Keys <= b.ewma.Keys
    && (forall k :: ExtendsAt(a, b, now, k))
    && (forall i :: |a.heap| <= i < |b.heap| ==> Staggered(b.heap[i], now, jitter))
  }

  ghost predicate ExtendsAt(a: Records, b: Records, now: real, k: Address) {
    k in b.ewma ==>
      && k in b.lastOk && k in b.history
      && if k in a.ewma then SameAt(a, b, k) else b.ewma[k] == 1.0 && b.lastOk[k] == now && b.history[k] == []
  }

  /** The same on record for an address that both track. */
  ghost predicate SameAt(a: Records, b: Records, k: Address) {
    && k in a.ewma && k in a.lastOk && k in a.history && k in b.ewma && k in b.lastOk && k in b.history
    && b.ewma[k] == a.ewma[k] && b.lastOk[k] == a.lastOk[k] && b.history[k] == a.history[k]
  }

  lemma ExtendsItself(a: Records, now: real, jitter: nat -> real, cfg: Config)
    requires a.Tracks(None, cfg)
    ensures Extends(a, a, now, jitter)
  {
    assert a.heap <= a.heap;
  }

  lemma ExtendsOnce(a: Records, b: Records, key: Address, due: real, now: real, jitter: nat -> real)
    requires Extends(a, b, now, jitter) && key !in b.ewma && Staggered(Scheduled(due, key), now, jitter)
    ensures Extends(a, b.Enrolled(key, due, now), now, jitter)
  {
    var c := b.Enrolled(key, due, now);
    forall k ensures ExtendsAt(a, c, now, k) {
      assert ExtendsAt(a, b, now, k);
    }
  }

  /** An entry that is due, and none is due sooner. */
  ghost predicate SoonestDue(heap: seq<Scheduled>, top: nat, now: real) {
    top < |heap| && heap[top].due <= now && forall i :: 0 <= i < |heap| ==> heap[top].due <= heap[i].due
  }

  /**
   What a start does: nothing when nothing is due; else the soonest entry is popped, and its address is
   the job if it is pooled or being retried, and dropped if it is neither.
   */
  ghost predicate Starts(pool: seq<Pooled>, b: Records, c: Records, job: Option<Address>, now: real) {
    if !SomeDue(b.heap, now) then job.None? && c == b
    else exists top: nat :: StartsAt(pool, b, c, job, now, top)
  }

  ghost predicate StartsAt(pool: seq<Pooled>, b: Records, c: Records, job: Option<Address>, now: real, top: nat) {
    && SoonestDue(b.heap, top, now)
    && var key := b.heap[top].key;
    && key in b.ewma
    && if key in b.retrying || Count(pool, key) > 0 then job == Some(key) && c == b.Popped(top)
       else job.None? && c == b.Popped(top).Dropped(key)
  }

  /** What a pass makes of the records after its enrollment. */
  ghost predicate TurnsInto(b: Records, d: Records, done: seq<Settlement>, turn: Turn, cfg: Config) {
    if !SomeDue(b.heap, turn.startedAt) then done == [] && d == b
    else exists top: nat :: TurnsAt(b, d, done, turn, cfg, top)
  }

  /** The soonest entry, which was due, is re-checked, or dropped if it is not being retried. */
  ghost predicate TurnsAt(b: Records, d: Records, done: seq<Settlement>, turn: Turn, cfg: Config, top: nat) {
    && SoonestDue(b.heap, top, turn.startedAt)
    && var key := b.heap[top].key;
    && key in b.ewma && key in b.history
    && if done == [] then key !in b.retrying && d == b.Popped(top).Dropped(key)
       else
         && done[0].key == key
         && d == b.Popped(top).Settled(key, done[0].outcome, turn.settledAt, turn.jitter(0), cfg)
  }

  /**
   Where a pass leaves an address that it re-checked: the fold of all its outcomes decides whether it
   is tracked, the last of them whether it is in the pool.
   */
  ghost predicate Stands(pool: seq<Pooled>, r: Records, key: Address, outcomes: seq<Outcome>, cfg: Config)
    requires outcomes != []
  {
    var working := outcomes[|outcomes| - 1].working;
    && (Count(pool, key) > 0 <==> working)
    && match AfterAll(Some(1.0), outcomes, cfg)
       case None => key !in Keys(r.heap) && key !in r.ewma && key !in r.lastOk && key !in r.retrying
       case Some(e) =>
         && key in Keys(r.heap) && key in r.ewma && r.ewma[key] == e
         && key in r.history && r.history[key] == outcomes
         && (key in r.retrying <==> !working)
  }

  /** What a pass does to an address that it did not re-check: it keeps its record, or loses all of it. */
  ghost predicate PassedBy(a: Records, b: Records, key: Address) {
    && (key in b.ewma ==> key in b.history && b.history[key] == Past(a.history, key))
    && (key in b.retrying <==> key in a.retrying)
  }

  /** Whatever was in the pool, nothing of the address is there when its turn comes. */
  ghost predicate GoneBefore(before: seq<Pooled>, edits: seq<Edit>, key: Address) {
    !Brought(edits, key) && (Count(before, key) == 0 || Deleted(key) in edits)
  }

  /**
   What one pass comes to. A re-check of an address leaves it where the fold of its outcomes says; an
   address without one keeps its record. An address that nobody brings is tracked if it is pooled. And
   one that is gone, with nobody to bring it back, is pooled at the end exactly if the pass re-checked
   it and the probe worked; and it is re-checked only if it was being retried, or deleted during its
   probe.
   */
  ghost predicate Passes(before: seq<Pooled>, a: Records, after: seq<Pooled>, b: Records, turn: Turn,
                         done: seq<Settlement>, k: Address, cfg: Config)
  {
    var checked := done != [] && done[0].key == k;
    && (done != [] ==>
         && done[0].outcome.working == turn.working && done[0].outcome.latency == turn.probed.AvgRespTime()
         && Stands(after, b, done[0].key, Past(a.history, done[0].key) + [done[0].outcome], cfg))
    && (!checked ==> PassedBy(a, b, k))
    && (!Brought(turn.Edits(), k) ==>
         && (k !in b.ewma ==> Count(after, k) == 0)
         && (k !in a.ewma && Count(before, k) == 0 ==> k !in b.ewma && !checked))
    && (GoneBefore(before, turn.Edits(), k) ==> (Count(after, k) > 0 <==> checked && turn.working))
    && (GoneBefore(before, turn.Early(), k) && checked ==> k in a.retrying)
  }

  /** The first half of a pass: who was enrolled, and what the edits left of the address. */
  ghost predicate Prepared(s0: seq<Pooled>, a: Records, s1: seq<Pooled>, b: Records, turn: Turn, k: Address) {
    && Extends(a, b, turn.enrolledAt, turn.jitter) && Fades(s0, s1, turn.Early(), k)
    && (!Brought(turn.Early(), k) ==>
         && (k !in b.ewma ==> Count(s1, k) == 0)
         && (Count(s0, k) == 0 && k in b.ewma ==> k in a.ewma))
  }

  /** The start: the job is pooled or being retried, and only an address that is neither is dropped. */
  ghost predicate Begun(s1: seq<Pooled>, b: Records, c: Records, job: Option<Address>, k: Address) {
    && c.retrying == b.retrying
    && (k in c.ewma ==> SameAt(b, c, k))
    && (k in b.ewma && k !in c.ewma ==> k !in c.retrying && Count(s1, k) == 0)
    && (job.Some? ==> SameAt(b, c, job.value) && (job.value in c.retrying || Count(s1, job.value) > 0))
  }

  /** The probe, if there was one, and what happened to the pool meanwhile. */
  ghost predicate Checked(s1: seq<Pooled>, c: Records, s2: seq<Pooled>, d: Records, turn: Turn, done: seq<Settlement>,
                          k: Address, cfg: Config)
  {
    if done == [] then d == c && Fades(s1, s2, turn.probing, k)
    else
      var key, o := done[0].key, done[0].outcome;
      && key in c.ewma && key in c.history
      && o.working == turn.working && o.latency == turn.probed.AvgRespTime()
      && (Count(s2, key) > 0 <==> turn.working)
      && (k != key ==> Fades(s1, s2, turn.probing, k))
      && d == c.Settled(key, o, turn.settledAt, turn.jitter(0), cfg)
  }

  class Loop {
    const cfg: Config
    var heap: seq<Scheduled>
    var ewma: map<Address, real>
    var lastOk: map<Address, real>
    var retrying: set<Address>
    var nextStart: real

    /** The address whose probe is running: off the heap, still tracked. */
    ghost var probing: Option<Address>
    /** Every scheduled start so far. */
    ghost var starts: seq<real>
    /** The outcomes of every tracked address since it was enrolled. */
    ghost var history: map<Address, seq<Outcome>>

    ghost function Rec(): Records
      reads this
    {
      Records(heap, ewma, lastOk, retrying, history)
    }

    ghost predicate Valid()
      reads this
    {
      && cfg.Durations()
      && Rec().Tracks(probing, cfg)
      && Paced(starts, nextStart, cfg.Gap())
    }

    constructor (cfg: Config, now: real)
      requires cfg.Durations()
      ensures Valid() && this.cfg == cfg && probing.None? && starts == [] && nextStart == now
      ensures Rec() == Records([], map[], map[], {}, map[])
    {
      this.cfg := cfg;
      heap, ewma, lastOk, retrying, nextStart := [], map[], map[], {}, now;
      probing, starts, history := None, [], map[];
    }

    method EnrollOne(key: Address, now: real, jitter: real)
      requires Valid() && probing.None?
      modifies this`heap, this`ewma, this`lastOk, this`history
      ensures Valid()
      ensures Rec() == if key in old(ewma) then old(Rec()) else old(Rec()).Enrolled(key, now + jitter, now)
    {
      if key !in ewma {
        Rec().EnrolledTracks(key, now + jitter, now, cfg);
        ewma := ewma[key := 1.0];
        lastOk := lastOk[key := now];
        history := history[key := []];
        heap := heap + [Scheduled(now + jitter, key)];
        assert Rec() == old(Rec()).Enrolled(key, now + jitter, now);
      }
    }

    method EnrollNext(key: Address, now: real, jitter: nat -> real, i: nat, ghost was: Records)
      requires Valid() && probing.None? && Extends(was, Rec(), now, jitter)
      modifies this`heap, this`ewma, this`lastOk, this`history
      ensures Valid() && Extends(was, Rec(), now, jitter) && ewma.Keys == old(ewma.Keys) + {key}
    {
      EnrollOne(key, now, jitter(i));
      assert Staggered(Scheduled(now + jitter(i), key), now, jitter);
      if key !in old(ewma) {
        ExtendsOnce(was, old(Rec()), key, now + jitter(i), now, jitter);
      }
    }

    method EnrollAll(addrs: seq<Address>, now: real, jitter: nat -> real)
      requires Valid() && probing.None?
      modifies this`heap, this`ewma, this`lastOk, this`history
      ensures Valid() && Extends(old(Rec()), Rec(), now, jitter)
      ensures ewma.Keys == old(ewma).Keys + (set a | a in addrs)
    {
      ExtendsItself(Rec(), now, jitter, cfg);
      for i := 0 to |addrs|
        invariant Valid() && Extends(old(Rec()), Rec(), now, jitter)
        invariant ewma.Keys == old(ewma).Keys + (set a | a in addrs[..i])
      {
        assert addrs[..i + 1] == addrs[..i] + [addrs[i]];
        EnrollNext(addrs[i], now, jitter, i, old(Rec()));
      }
      assert addrs[..|addrs|] == addrs;
    }

    /** Every pooled address is tracked afterwards; those that were tracked already are left as they are. */
    method Enroll(pool: Pool, now: real, jitter: nat -> real)
      requires Valid() && probing.None?
      modifies this`heap, this`ewma, this`lastOk, this`history
      ensures Valid() && Extends(old(Rec()), Rec(), now, jitter)
      ensures forall k :: k in ewma <==> k in old(ewma) || Count(pool.state, k) > 0
    {
      var addrs := Addrs(pool.state);
      EnrollAll(addrs, now, jitter);
      forall k ensures k in addrs <==> Count(pool.state, k) > 0 {
        CountPositive(pool.state, k);
        if i :| 0 <= i < |pool.state| && pool.state[i].proxy.addr == k {
          assert addrs[i] == k;
        }
      }
    }

    /** The heap's top: nothing is due sooner. */
    method Soonest() returns (top: nat)
      requires heap != []
      ensures top < |heap|
      ensures forall i :: 0 <= i < |heap| ==> heap[top].due <= heap[i].due
    {
      top := 0;
      for i := 1 to |heap|
        invariant top < |heap|
        invariant forall j :: 0 <= j < i ==> heap[top].due <= heap[j].due
      {
        if heap[i].due < heap[top].due {
          top := i;
        }
      }
    }

    method Pop(top: nat)
      requires Valid() && probing.None? && top < |heap|
      modifies this`heap, this`probing
      ensures Valid() && probing == Some(old(heap)[top].key) && old(heap)[top].key in ewma
      ensures Rec() == old(Rec()).Popped(top)
    {
      Rec().PoppedTracks(top, cfg);
      probing := Some(heap[top].key);
      heap := heap[..top] + heap[top + 1..];
      assert Rec() == old(Rec()).Popped(top);
    }

    /** The popped address is no longer tracked. */
    method Forget(key: Address)
      requires Valid() && probing == Some(key)
      modifies this`ewma, this`lastOk, this`retrying, this`probing, this`history
      ensures Valid() && probing.None? && Rec() == old(Rec()).Dropped(key)
    {
      Rec().DroppedTracks(key, cfg);
      ewma := ewma - {key};
      lastOk := lastOk - {key};
      retrying := retrying - {key};
      history := history - {key};
      probing := None;
      assert Rec() == old(Rec()).Dropped(key);
    }

    /** The token bucket: a start now, or as soon as the last one allows. */
    method TakeToken(now: real) returns (startAt: real)
      requires Valid()
      modifies this`nextStart, this`starts
      ensures Valid()
      ensures startAt == Max(old(nextStart), now)
      ensures nextStart == startAt + cfg.Gap() && starts == old(starts) + [startAt]
    {
      startAt := Max(nextStart, now);
      nextStart := startAt + cfg.Gap();
      starts := starts + [startAt];
    }

    /**
     From the end of the sleep to the start of a probe. Nothing is popped before it is due. A job comes
     out only for an address that the pool holds or that is being retried; one that was deleted
     meanwhile is forgotten, not probed.
     */
    method Start(pool: Pool, now: real) returns (job: Option<Address>)
      requires Valid() && probing.None?
      modifies this
      ensures Valid() && probing == job
      ensures starts == old(starts) + if SomeDue(old(heap), now) then [Max(old(nextStart), now)] else []
      ensures !SomeDue(old(heap), now) ==> nextStart == old(nextStart)
      ensures Starts(pool.state, old(Rec()), Rec(), job, now)
    {
      if heap == [] {
        return None;
      }
      var top := Soonest();
      if now < heap[top].due {
        return None;
      }
      assert SoonestDue(heap, top, now);
      job := StartTop(pool, top, now);
      assert StartsAt(pool.state, old(Rec()), Rec(), job, now, top);
    }

    /** The soonest entry is due. */
    method StartTop(pool: Pool, top: nat, now: real) returns (job: Option<Address>)
      requires Valid() && probing.None? && top < |heap|
      modifies this
      ensures Valid() && probing == job && old(heap)[top].key in old(ewma)
      ensures starts == old(starts) + [Max(old(nextStart), now)]
      ensures
        var key := old(heap)[top].key;
        if key in old(retrying) || Count(pool.state, key) > 0 then
          job == Some(key) && Rec() == old(Rec()).Popped(top)
        else
          job.None? && Rec() == old(Rec()).Popped(top).Dropped(key)
    {
      var _ := TakeToken(now);
      var key := heap[top].key;
      Pop(top);
      if key !in retrying && !pool.Holds(key) {
        Forget(key);
        return None;
      }
      return Some(key);
    }

    /** `pool.add` and `pool.remove_addr` are about one address. */
    static method AddOne(pool: Pool, proxy: Proxy)
      requires pool.Valid()
      modifies pool`state, pool`epoch, pool`books
      ensures pool.Valid() && pool.books.leased == old(pool.books.leased) && Count(pool.state, proxy.addr) > 0
      ensures forall k :: k != proxy.addr ==> Count(pool.state, k) == Count(old(pool.state), k)
    {
      pool.Add(proxy);
      forall k | k != proxy.addr ensures Count(pool.state, k) == Count(old(pool.state), k) {
        CountPush(old(pool.state), Pooled(proxy, None), k);
      }
    }

    static method RemoveOne(pool: Pool, key: Address)
      requires pool.Valid()
      modifies pool`state, pool`books
      ensures pool.Valid() && pool.books.leased == old(pool.books.leased) && Count(pool.state, key) == 0
      ensures forall k :: k != key ==> Count(pool.state, k) == Count(old(pool.state), k)
    {
      var _ := pool.Remove(key);
      forall k | k != key ensures Count(pool.state, k) == Count(old(pool.state), k) {
        CountWithout(old(pool.state), key, k);
      }
    }

    method Keep(key: Address, e: real, now: real, nextDue: real, ghost o: Outcome)
      requires Valid() && probing == Some(key) && key in ewma && After(Some(ewma[key]), o, cfg) == Some(e)
      modifies this`heap, this`ewma, this`lastOk, this`retrying, this`probing, this`history
      ensures Valid() && probing.None? && Rec() == old(Rec().Kept(key, e, now, nextDue, o))
    {
      Rec().KeptTracks(key, e, now, nextDue, o, cfg);
      ewma := ewma[key := e];
      lastOk := lastOk[key := now];
      retrying := retrying - {key};
      history := history[key := history[key] + [o]];
      heap := heap + [Scheduled(nextDue, key)];
      probing := None;
      assert Rec() == old(Rec().Kept(key, e, now, nextDue, o));
    }

    method Retry(key: Address, e: real, nextDue: real, ghost o: Outcome)
      requires Valid() && probing == Some(key) && key in ewma && After(Some(ewma[key]), o, cfg) == Some(e)
      modifies this`heap, this`ewma, this`retrying, this`probing, this`history
      ensures Valid() && probing.None? && Rec() == old(Rec().Retried(key, e, nextDue, o))
    {
      Rec().RetriedTracks(key, e, nextDue, o, cfg);
      ewma := ewma[key := e];
      retrying := retrying + {key};
      history := history[key := history[key] + [o]];
      heap := heap + [Scheduled(nextDue, key)];
      probing := None;
      assert Rec() == old(Rec().Retried(key, e, nextDue, o));
    }

    /** Fold the outcome, and keep, retry or evict the address. */
    method Book(key: Address, working: bool, latency: real, now: real, jitter: real) returns (ghost o: Outcome)
      requires Valid() && probing == Some(key) && key in ewma
      modifies this`heap, this`ewma, this`lastOk, this`retrying, this`probing, this`history
      ensures Valid() && probing.None?
      ensures o == Outcome(working, latency, Elapsed(old(lastOk[key]), now))
      ensures Rec() == old(Rec()).Settled(key, o, now, jitter, cfg)
    {
      var age := Elapsed(lastOk[key], now);
      o := Outcome(working, latency, age);
      var e := Fold(ewma[key], working);
      var nextDue := now + NextInterval(e, cfg) + jitter;
      if working {
        Keep(key, e, now, nextDue, o);
      } else if ShouldRetry(e, latency, age, cfg) {
        Retry(key, e, nextDue, o);
      } else {
        Forget(key);
      }
    }

    /** The probe of `proxy` has ended: its outcome is folded, and only a working proxy is in the pool. */
    method Settle(pool: Pool, proxy: Proxy, working: bool, now: real, jitter: real) returns (ghost o: Outcome)
      requires Valid() && probing == Some(proxy.addr) && proxy.addr in ewma && pool.Valid()
      modifies this`heap, this`ewma, this`lastOk, this`retrying, this`probing, this`history
      modifies pool`state, pool`epoch, pool`books
      ensures Valid() && probing.None? && pool.Valid() && pool.books.leased == old(pool.books.leased)
      ensures Count(pool.state, proxy.addr) > 0 <==> working
      ensures forall k :: k != proxy.addr ==> Count(pool.state, k) == Count(old(pool.state), k)
      ensures o == Outcome(working, proxy.AvgRespTime(), Elapsed(old(lastOk[proxy.addr]), now))
      ensures Rec() == old(Rec()).Settled(proxy.addr, o, now, jitter, cfg)
    {
      if working {
        AddOne(pool, proxy);
      } else {
        RemoveOne(pool, proxy.addr);
      }
      o := Book(proxy.addr, working, proxy.AvgRespTime(), now, jitter);
    }

    /** One thing the environment does to the pool; `out` is what clients hold, and so may give back. */
    static method EditOnce(pool: Pool, edit: Edit, out: multiset<Address>) returns (left: multiset<Address>)
      requires pool.Valid() && out <= pool.books.leased
      modifies pool
      ensures pool.Valid() && left <= pool.books.leased
      ensures forall k :: Fades(old(pool.state), pool.state, [edit], k)
    {
      left := out;
      match edit {
        case Inserted(p) =>
          AddOne(pool, p);
        case Deleted(addr) =>
          RemoveOne(pool, addr);
        case Drawn(scheme, client, now, draw) =>
          left := DrawOne(pool, scheme, client, now, draw, out);
        case GivenBack(p, blockedUntil) =>
          left := GiveBackOne(pool, p, blockedUntil, out);
      }
      forall k ensures Fades(old(pool.state), pool.state, [edit], k) {
        if !Brought([edit], k) {
          assert !Brings([edit][0], k);
        }
      }
    }

    static method DrawOne(pool: Pool, scheme: Scheme, client: ClientKey, now: int, draw: nat, out: multiset<Address>)
        returns (left: multiset<Address>)
      requires pool.Valid() && out <= pool.books.leased
      modifies pool
      ensures pool.Valid() && left <= pool.books.leased
      ensures forall k :: Count(pool.state, k) <= Count(old(pool.state), k)
    {
      ghost var was := pool.state;
      ghost var picked := BestFor(was, pool.Context(scheme, client, now, draw));
      var r := pool.TrySelect(scheme, client, now, draw);
      left := out;
      if r.Some? {
        left := out + multiset{r.value.addr};
        forall k ensures Count(pool.state, k) <= Count(old(pool.state), k) {
          CountSwapRemove(was, picked.value, k);
        }
      }
    }

    static method GiveBackOne(pool: Pool, p: Proxy, blockedUntil: Option<int>, out: multiset<Address>)
        returns (left: multiset<Address>)
      requires pool.Valid() && out <= pool.books.leased
      modifies pool
      ensures pool.Valid() && left <= pool.books.leased
      ensures forall k :: k != p.addr ==> Count(pool.state, k) == Count(old(pool.state), k)
    {
      left := out;
      if p.addr in out {
        left := out - multiset{p.addr};
        pool.PutInner(p, blockedUntil, false);
        forall k | k != p.addr ensures Count(pool.state, k) == Count(old(pool.state), k) {
          CountPush(old(pool.state), Pooled(p, blockedUntil), k);
        }
      }
    }

    /** What the environment does to the pool between two of the loop's own steps. */
    static method Meanwhile(pool: Pool, edits: seq<Edit>, out: multiset<Address>) returns (left: multiset<Address>)
      requires pool.Valid() && out <= pool.books.leased
      modifies pool
      ensures pool.Valid() && left <= pool.books.leased
      ensures forall k :: Fades(old(pool.state), pool.state, edits, k)
    {
      left := out;
      for i := 0 to |edits|
        invariant pool.Valid() && left <= pool.books.leased
        invariant forall k :: Fades(old(pool.state), pool.state, edits[..i], k)
      {
        ghost var mid := pool.state;
        left := EditOnce(pool, edits[i], left);
        assert edits[..i + 1] == edits[..i] + [edits[i]];
        FadesOnAll(old(pool.state), mid, pool.state, edits[..i], [edits[i]]);
      }
      assert edits[..|edits|] == edits;
    }

    /** The first half of a pass, up to the end of the sleep; `watched` is any address. */
    method Prepare(pool: Pool, turn: Turn, out: multiset<Address>, ghost watched: Address)
        returns (left: multiset<Address>)
      requires Valid() && probing.None? && pool.Valid() && out <= pool.books.leased
      modifies this`heap, this`ewma, this`lastOk, this`history, pool
      ensures Valid() && pool.Valid() && left <= pool.books.leased
      ensures Prepared(old(pool.state), old(Rec()), pool.state, Rec(), turn, watched)
    {
      left := Meanwhile(pool, turn.before, out);
      ghost var enrolled := pool.state;
      Enroll(pool, turn.enrolledAt, turn.jitter);
      left := Meanwhile(pool, turn.asleep, left);
      FadesOn(old(pool.state), enrolled, pool.state, turn.before, turn.asleep, watched);
      if !Brought(turn.Early(), watched) {
        BroughtInPart(turn.before, turn.asleep, watched);
        assert Fades(old(pool.state), enrolled, turn.before, watched);
        assert Fades(enrolled, pool.state, turn.asleep, watched);
      }
    }

    /** `Start`, and what it comes to for any address. */
    method Begin(pool: Pool, now: real, ghost watched: Address) returns (job: Option<Address>)
      requires Valid() && probing.None?
      modifies this
      ensures Valid() && probing == job
      ensures old(starts) <= starts && |starts| == |old(starts)| + if SomeDue(old(heap), now) then 1 else 0
      ensures job.Some? ==> SomeDue(old(heap), now)
      ensures Starts(pool.state, old(Rec()), Rec(), job, now) && Begun(pool.state, old(Rec()), Rec(), job, watched)
    {
      job := Start(pool, now);
      StartsBegin(pool.state, old(Rec()), Rec(), job, now, watched, cfg);
    }

    /** The second half of a pass that has a job. */
    method Probe(pool: Pool, key: Address, turn: Turn, out: multiset<Address>, ghost watched: Address)
        returns (left: multiset<Address>, ghost o: Outcome)
      requires Valid() && probing == Some(key) && key in ewma && pool.Valid() && out <= pool.books.leased
      modifies this`heap, this`ewma, this`lastOk, this`retrying, this`probing, this`history, pool
      ensures Valid() && probing.None? && pool.Valid() && left <= pool.books.leased
      ensures o.age == Elapsed(old(lastOk[key]), turn.settledAt)
      ensures Checked(old(pool.state), old(Rec()), pool.state, Rec(), turn, [Settlement(key, o)], watched, cfg)
    {
      left := Meanwhile(pool, turn.probing, out);
      assert Fades(old(pool.state), pool.state, turn.probing, watched);
      o := Settle(pool, turn.probed.(addr := key), turn.working, turn.settledAt, turn.jitter(0));
    }

    /** The first half of a pass, with what was on record after the enrollment. */
    method EnrollAndStart(pool: Pool, turn: Turn, out: multiset<Address>, ghost watched: Address)
        returns (left: multiset<Address>, job: Option<Address>, ghost enrolled: Records)
      requires Valid() && probing.None? && pool.Valid() && out <= pool.books.leased
      modifies this, pool
      ensures Valid() && probing == job && pool.Valid() && left <= pool.books.leased
      ensures old(starts) <= starts && (if job.Some? then 1 else 0) <= |starts| - |old(starts)| <= 1
      ensures SomeDue(old(heap), turn.startedAt) ==> |starts| == |old(starts)| + 1
      ensures enrolled.Tracks(None, cfg) && Prepared(old(pool.state), old(Rec()), pool.state, enrolled, turn, watched)
      ensures Starts(pool.state, enrolled, Rec(), job, turn.startedAt)
      ensures Begun(pool.state, enrolled, Rec(), job, watched)
    {
      left := Prepare(pool, turn, out, watched);
      enrolled := Rec();
      job := Begin(pool, turn.startedAt, watched);
      DueStaysDue(old(heap), enrolled.heap, turn.startedAt);
    }

    /** The second half of a pass. */
    method Finish(pool: Pool, job: Option<Address>, turn: Turn, out: multiset<Address>, ghost enrolled: Records,
                  ghost watched: Address)
        returns (left: multiset<Address>, ghost done: seq<Settlement>)
      requires Valid() && probing == job && (job.Some? ==> job.value in ewma)
      requires Starts(pool.state, enrolled, Rec(), job, turn.startedAt) && enrolled.Tracks(None, cfg)
      requires pool.Valid() && out <= pool.books.leased
      modifies this`heap, this`ewma, this`lastOk, this`retrying, this`probing, this`history, pool
      ensures Valid() && probing.None? && pool.Valid() && left <= pool.books.leased
      ensures if job.None? then done == [] else |done| == 1 && done[0].key == job.value
      ensures Checked(old(pool.state), old(Rec()), pool.state, Rec(), turn, done, watched, cfg)
      ensures TurnsInto(enrolled, Rec(), done, turn, cfg)
    {
      if job.Some? {
        ghost var o;
        left, o := Probe(pool, job.value, turn, out, watched);
        done := [Settlement(job.value, o)];
      } else {
        left := Meanwhile(pool, turn.probing, out);
        assert Fades(old(pool.state), pool.state, turn.probing, watched);
        done := [];
      }
      StartsTurn(old(pool.state), enrolled, old(Rec()), pool.state, Rec(), turn, job, done, watched, cfg);
    }

    /**
     One pass of the loop, with what happens to the pool meanwhile; `watched` is any address, and
     `enrolled` what was on record after the enrollment. When something is due, a start is spent, and the
     soonest address is re-checked, or dropped if it is gone. A re-check of an address leaves it where the fold of its
     outcomes says; an address without one keeps its record. And an address that is gone from the pool,
     with nobody to bring it back, is there at the end exactly if this pass re-checked it and the probe
     worked; and it is re-checked only if it was being retried or was deleted during its probe.
     */
    method Pass(pool: Pool, turn: Turn, out: multiset<Address>, ghost watched: Address)
        returns (left: multiset<Address>, ghost done: seq<Settlement>, ghost enrolled: Records)
      requires Valid() && probing.None? && pool.Valid() && out <= pool.books.leased
      modifies this, pool
      ensures Valid() && probing.None? && pool.Valid() && left <= pool.books.leased
      ensures old(starts) <= starts && |done| <= |starts| - |old(starts)| <= 1
      ensures SomeDue(old(heap), turn.startedAt) ==> |starts| == |old(starts)| + 1
      ensures Extends(old(Rec()), enrolled, turn.enrolledAt, turn.jitter)
      ensures TurnsInto(enrolled, Rec(), done, turn, cfg)
      ensures Passes(old(pool.state), old(Rec()), pool.state, Rec(), turn, done, watched, cfg)
    {
      var job;
      left, job, enrolled := EnrollAndStart(pool, turn, out, watched);
      ghost var early, begun := pool.state, Rec();
      left, done := Finish(pool, job, turn, left, enrolled, watched);
      PassesWhole(old(pool.state), old(Rec()), early, enrolled, begun, pool.state, Rec(), turn, job, done, watched,
                  cfg);
    }

    /**
     Any number of passes. The starts stay spaced. And for any address that nobody brings to the pool
     meanwhile: its record is all its outcomes; eleven failures in a row at the end of them have evicted
     it from everything; and if it was gone and not being retried at the start, it stays out.
     */
    method Run(pool: Pool, turns: seq<Turn>, out: multiset<Address>, ghost watched: Address)
        returns (left: multiset<Address>, ghost done: seq<Settlement>)
      requires Valid() && probing.None? && pool.Valid() && out <= pool.books.leased
      modifies this, pool
      ensures Valid() && probing.None? && pool.Valid() && left <= pool.books.leased
      ensures Spaced(starts, cfg.Gap()) && old(starts) <= starts
      ensures |done| <= |starts| - |old(starts)| <= |turns|
      ensures !BroughtIn(turns, watched) ==>
        && var outcomes := Past(old(history), watched) + OutcomesOf(done, watched);
        && (watched in ewma ==> history[watched] == outcomes)
        && (EndsInFailures(outcomes, 11) ==>
             && watched !in Keys(heap) && watched !in ewma && watched !in lastOk && watched !in retrying
             && Count(pool.state, watched) == 0)
        && (Count(old(pool.state), watched) == 0 && watched !in old(retrying) ==>
             Count(pool.state, watched) == 0 && watched !in retrying && OutcomesOf(done, watched) == [])
    {
      left, done := out, [];
      for i := 0 to |turns|
        invariant Valid() && probing.None? && pool.Valid() && left <= pool.books.leased
        invariant old(starts) <= starts && |done| <= |starts| - |old(starts)| <= i
        invariant !BroughtIn(turns, watched) ==>
          Follows(old(pool.state), old(Rec()), pool.state, Rec(), done, watched, i)
      {
        ghost var pooled, was, some := pool.state, Rec(), done;
        ghost var more, unused;
        left, more, unused := Pass(pool, turns[i], left, watched);
        done := done + more;
        if !BroughtIn(turns, watched) {
          assert !Brought(turns[i].Edits(), watched);
          FollowsOn(old(pool.state), old(Rec()), pooled, was, some, pool.state, Rec(), more, turns[i], watched, i, cfg);
        }
      }
      if !BroughtIn(turns, watched) && EndsInFailures(Past(old(history), watched) + OutcomesOf(done, watched), 11) {
        FollowedToTheEnd(old(pool.state), old(Rec()), pool.state, Rec(), done, watched, |turns|, cfg);
      }
    }
  }

  ghost predicate BroughtIn(turns: seq<Turn>, k: Address) {
    exists i :: 0 <= i < |turns| && Brought(turns[i].Edits(), k)
  }

  lemma StartsBegin(pool: seq<Pooled>, b: Records, c: Records, job: Option<Address>, now: real, k: Address, cfg: Config)
    requires Starts(pool, b, c, job, now) && b.Tracks(None, cfg)
    ensures Begun(pool, b, c, job, k)
  {
    if SomeDue(b.heap, now) {
      var top: nat :| StartsAt(pool, b, c, job, now, top);
      assert b.Placed(k, None);
    }
  }

  lemma StartsTurn(s1: seq<Pooled>, b: Records, c: Records, s2: seq<Pooled>, d: Records, turn: Turn,
                   job: Option<Address>, done: seq<Settlement>, k: Address, cfg: Config)
    requires Starts(s1, b, c, job, turn.startedAt) && Checked(s1, c, s2, d, turn, done, k, cfg)
    requires b.Tracks(None, cfg) && if job.None? then done == [] else done != [] && done[0].key == job.value
    ensures TurnsInto(b, d, done, turn, cfg)
  {
    if SomeDue(b.heap, turn.startedAt) {
      var top: nat :| StartsAt(s1, b, c, job, turn.startedAt, top);
      assert TurnsAt(b, d, done, turn, cfg, top);
    }
  }

  lemma DueStaysDue(before: seq<Scheduled>, after: seq<Scheduled>, now: real)
    requires before <= after
    ensures SomeDue(before, now) ==> SomeDue(after, now)
  {
    if SomeDue(before, now) {
      var i :| 0 <= i < |before| && before[i].due <= now;
      assert after[i] == before[i];
    }
  }

  lemma PastOfEnrolled(a: Records, b: Records, key: Address, now: real, jitter: nat -> real, cfg: Config)
    requires a.Tracks(None, cfg) && Extends(a, b, now, jitter) && key in b.ewma
    ensures key in b.history && b.history[key] == Past(a.history, key)
  {
    assert ExtendsAt(a, b, now, key);
  }

  lemma StandsSettled(pool: seq<Pooled>, a: Records, b: Records, c: Records, key: Address, o: Outcome, turn: Turn,
                      cfg: Config)
    requires a.Tracks(None, cfg) && Extends(a, b, turn.enrolledAt, turn.jitter) && SameAt(b, c, key)
    requires c.Tracks(Some(key), cfg) && key in c.ewma && (Count(pool, key) > 0 <==> o.working)
    requires c.Settled(key, o, turn.settledAt, turn.jitter(0), cfg).Tracks(None, cfg)
    ensures Stands(pool, c.Settled(key, o, turn.settledAt, turn.jitter(0), cfg), key, Past(a.history, key) + [o], cfg)
  {
    PastOfEnrolled(a, b, key, turn.enrolledAt, turn.jitter, cfg);
    assert c.Rated(key, cfg);
    OneMoreOutcome(Some(1.0), c.history[key], o, cfg);
    assert c.Settled(key, o, turn.settledAt, turn.jitter(0), cfg).Placed(key, None);
  }

  lemma PassedBySettled(a: Records, b: Records, c: Records, d: Records, done: seq<Settlement>, k: Address, turn: Turn,
                        cfg: Config)
    requires a.Tracks(None, cfg) && Extends(a, b, turn.enrolledAt, turn.jitter) && c.retrying == b.retrying
    requires k in c.ewma ==> SameAt(b, c, k)
    requires
      if done == [] then d == c
      else
        var key := done[0].key;
        && key != k && key in c.ewma && key in c.history
        && d == c.Settled(key, done[0].outcome, turn.settledAt, turn.jitter(0), cfg)
    ensures PassedBy(a, d, k)
  {
    if k in d.ewma {
      PastOfEnrolled(a, b, k, turn.enrolledAt, turn.jitter, cfg);
    }
  }

  lemma PassesWhole(s0: seq<Pooled>, a: Records, s1: seq<Pooled>, b: Records, c: Records, s2: seq<Pooled>, d: Records,
                    turn: Turn, job: Option<Address>, done: seq<Settlement>, k: Address, cfg: Config)
    requires a.Tracks(None, cfg) && c.Tracks(job, cfg) && d.Tracks(None, cfg)
    requires Prepared(s0, a, s1, b, turn, k) && Begun(s1, b, c, job, k) && Checked(s1, c, s2, d, turn, done, k, cfg)
    requires if job.None? then done == [] else done != [] && done[0].key == job.value
    ensures Passes(s0, a, s2, d, turn, done, k, cfg)
  {
    if done != [] {
      StandsSettled(s2, a, b, c, done[0].key, done[0].outcome, turn, cfg);
    }
    if done == [] || done[0].key != k {
      PassedBySettled(a, b, c, d, done, k, turn, cfg);
      FadesOn(s0, s1, s2, turn.Early(), turn.probing, k);
    }
    if !Brought(turn.Edits(), k) {
      BroughtInPart(turn.Early(), turn.probing, k);
    }
  }

  // ----- Any number of passes -----

  /** Where an address that nobody brings is after some passes. */
  ghost predicate Follows(before: seq<Pooled>, a: Records, after: seq<Pooled>, b: Records, done: seq<Settlement>,
                          k: Address, passes: nat)
  {
    && (passes == 0 ==> before == after && a == b && done == [])
    && (k in b.ewma ==> k in b.history && b.history[k] == Past(a.history, k) + OutcomesOf(done, k))
    && (k !in b.ewma && passes > 0 ==> Count(after, k) == 0)
    && (Count(before, k) == 0 && k !in a.retrying ==>
         Count(after, k) == 0 && k !in b.retrying && OutcomesOf(done, k) == [])
  }

  lemma {:induction false} OutcomesJoin(some: seq<Settlement>, more: seq<Settlement>, k: Address)
    requires |more| <= 1
    ensures OutcomesOf(some + more, k)
         == OutcomesOf(some, k) + if more != [] && more[0].key == k then [more[0].outcome] else []
  {
    if more == [] {
      assert some + more == some;
    } else {
      assert (some + more)[..|some|] == some;
    }
  }

  lemma FollowsOn(s0: seq<Pooled>, a: Records, s1: seq<Pooled>, b: Records, some: seq<Settlement>,
                  s2: seq<Pooled>, c: Records, more: seq<Settlement>, turn: Turn, k: Address, i: nat, cfg: Config)
    requires Follows(s0, a, s1, b, some, k, i) && Passes(s1, b, s2, c, turn, more, k, cfg) && |more| <= 1
    requires !Brought(turn.Edits(), k) && a.Tracks(None, cfg) && b.Tracks(None, cfg) && c.Tracks(None, cfg)
    ensures Follows(s0, a, s2, c, some + more, k, i + 1)
  {
    OutcomesJoin(some, more, k);
    BroughtInPart(turn.Early(), turn.probing, k);
    if k in c.ewma {
      PastFollows(s0, a, s1, b, some, k, i, cfg);
    }
  }

  lemma PastFollows(s0: seq<Pooled>, a: Records, s1: seq<Pooled>, b: Records, some: seq<Settlement>, k: Address, i: nat,
                    cfg: Config)
    requires Follows(s0, a, s1, b, some, k, i) && b.Tracks(None, cfg) && (i > 0 ==> k in b.ewma || Count(s1, k) > 0)
    ensures Past(b.history, k) == Past(a.history, k) + OutcomesOf(some, k)
  {
  }

  lemma FollowedToTheEnd(s0: seq<Pooled>, a: Records, s1: seq<Pooled>, b: Records, done: seq<Settlement>, k: Address,
                         passes: nat, cfg: Config)
    requires Follows(s0, a, s1, b, done, k, passes) && b.Tracks(None, cfg)
    requires EndsInFailures(Past(a.history, k) + OutcomesOf(done, k), 11)
    ensures k !in Keys(b.heap) && k !in b.ewma && k !in b.lastOk && k !in b.retrying && Count(s1, k) == 0
  {
    assert b.Placed(k, None);
    if k in b.ewma {
      assert b.Rated(k, cfg);
      ElevenInARowEvict(b.history[k], cfg);
    }
  }

  lemma BroughtInPart(front: seq<Edit>, back: seq<Edit>, k: Address)
    requires !Brought(front + back, k)
    ensures !Brought(front, k) && !Brought(back, k)
  {
    forall i | 0 <= i < |front| ensures !Brings(front[i], k) {
      assert front[i] == (front + back)[i];
    }
    forall i | 0 <= i < |back| ensures !Brings(back[i], k) {
      assert back[i] == (front + back)[|front| + i];
    }
  }

  lemma KeysPush(heap: seq<Scheduled>, s: Scheduled)
    ensures Keys(heap + [s]) == Keys(heap) + {s.key}
    ensures Distinct(heap) && s.key !in Keys(heap) ==> Distinct(heap + [s])
  {
    assert forall t :: t in heap + [s] <==> t in heap || t == s;
    forall i | 0 <= i < |heap| ensures heap[i].key in Keys(heap) {
      assert heap[i] in heap;
    }
  }

  lemma KeysRemove(heap: seq<Scheduled>, top: nat)
    requires Distinct(heap) && top < |heap|
    ensures var rest := heap[..top] + heap[top + 1..];
      Distinct(rest) && Keys(rest) == Keys(heap) - {heap[top].key} && heap[top].key in Keys(heap)
  {
    var rest := heap[..top] + heap[top + 1..];
    assert forall i :: 0 <= i < |rest| ==> rest[i] == if i < top then heap[i] else heap[i + 1];
    assert heap[top] in heap;
    forall k | k in Keys(heap) && k != heap[top].key ensures k in Keys(rest) {
      var i :| 0 <= i < |heap| && heap[i].key == k;
      assert rest[if i < top then i else i - 1] == heap[i];
    }
    forall k | k in Keys(rest) ensures k in Keys(heap) && k != heap[top].key {
      var i :| 0 <= i < |rest| && rest[i].key == k;
      assert heap[if i < top then i else i + 1] == rest[i];
    }
  }

  // ----- Deleted addresses that come back -----

  /** `jitter`: half the base to one and a half. */
  predicate Jittered(wait: real, cfg: Config) {
    0.5 * cfg.minInterval <= wait <= 1.5 * cfg.minInterval
  }

  /** One pooled proxy, enrolled at time 0 and due after its jitter. */
  method OneDue(p: Proxy, config: PoolConfig, cfg: Config, wait: real) returns (pool: Pool, loop: Loop)
    requires CountryOk(p, config.countries) && cfg.Durations() && Jittered(wait, cfg)
    ensures fresh(pool) && fresh(loop) && pool.Valid() && loop.Valid() && loop.cfg == cfg && loop.probing.None?
    ensures pool.state == [Pooled(p, None)] && loop.Rec() == Enrollee(p.addr, wait)
  {
    pool := new Pool.FromProxies([p], config);
    assert [p][..0] == [] && pool.state == [Pooled(p, None)];
    loop := new Loop(cfg, 0.0);
    ghost var empty := loop.Rec();
    loop.Enroll(pool, 0.0, _ => wait);
    OneEnrolled(empty, loop.Rec(), pool.state, p.addr, _ => wait, wait, cfg);
  }

  function Enrollee(key: Address, due: real): Records {
    Records([Scheduled(due, key)], map[key := 1.0], map[key := 0.0], {}, map[key := []])
  }

  /** Its probe is running. */
  method OneProbed(p: Proxy, config: PoolConfig, cfg: Config, wait: real) returns (pool: Pool, loop: Loop)
    requires CountryOk(p, config.countries) && cfg.Durations() && Jittered(wait, cfg)
    ensures fresh(pool) && fresh(loop) && pool.Valid() && loop.Valid() && loop.cfg == cfg
    ensures loop.probing == Some(p.addr) && loop.Rec() == Enrollee(p.addr, wait).(heap := [])
  {
    pool, loop := OneDue(p, config, cfg, wait);
    assert loop.heap[0].due <= wait;
    CountPositive(pool.state, p.addr);
    assert pool.state[0].proxy.addr == p.addr;
    var _ := loop.Start(pool, wait);
  }

  lemma FirstTwoDiffer(heap: seq<Scheduled>)
    requires Distinct(heap)
    ensures |heap| > 1 ==> heap[0].key != heap[1].key
  {
  }

  lemma {:induction false} OneEnrolled(a: Records, b: Records, pool: seq<Pooled>, key: Address, jitter: nat -> real,
                                       wait: real, cfg: Config)
    requires a == Records([], map[], map[], {}, map[]) && Extends(a, b, 0.0, jitter) && b.Tracks(None, cfg)
    requires |pool| == 1 && pool[0].proxy.addr == key
    requires forall k :: k in b.ewma <==> Count(pool, k) > 0
    requires forall n :: jitter(n) == wait
    ensures b == Enrollee(key, wait)
  {
    assert pool[..0] == [];
    assert forall k :: Count(pool, k) == if k == key then 1 else 0;
    assert b.ewma.Keys == {key};
    assert ExtendsAt(a, b, 0.0, key);
    assert b.ewma == map[key := 1.0] && b.lastOk == map[key := 0.0] && b.history == map[key := []];
    assert b.Placed(key, None);
    var i :| 0 <= i < |b.heap| && b.heap[i].key == key;
    forall j | 0 <= j < |b.heap| ensures b.heap[j] == Scheduled(wait, key) {
      assert b.heap[j] in b.heap;
      assert b.Placed(b.heap[j].key, None);
      assert Staggered(b.heap[j], 0.0, jitter);
    }
    FirstTwoDiffer(b.heap);
    assert b.heap == [Scheduled(wait, key)];
  }

  /** When the next probe is due after a first one that failed. */
  function RetryDue(failedAt: real, wait: real, cfg: Config): real {
    failedAt + NextInterval(0.7, cfg) + wait
  }

  /** The first probe fails, and the address waits for its next one outside the pool. */
  method OneRetried(p: Proxy, config: PoolConfig, cfg: Config, probed: Proxy, wait: real, failedAt: real)
    returns (pool: Pool, loop: Loop)
    requires CountryOk(p, config.countries) && cfg.Durations() && Jittered(wait, cfg) && failedAt >= wait
    requires ShouldRetry(0.7, probed.AvgRespTime(), failedAt, cfg)
    ensures fresh(pool) && fresh(loop) && pool.Valid() && loop.Valid() && loop.cfg == cfg && loop.probing.None?
    ensures loop.heap == [Scheduled(RetryDue(failedAt, wait, cfg), p.addr)] && loop.retrying == {p.addr}
  {
    pool, loop := OneProbed(p, config, cfg, wait);
    ghost var o := loop.Settle(pool, probed.(addr := p.addr), false, failedAt, wait);
    RetriedOnce(Enrollee(p.addr, wait).(heap := []), p.addr, o, failedAt, wait, cfg);
  }

  lemma RetriedOnce(r: Records, key: Address, o: Outcome, failedAt: real, wait: real, cfg: Config)
    requires r.heap == [] && r.retrying == {} && r.ewma == map[key := 1.0] && key in r.history
    requires !o.working && ShouldRetry(0.7, o.latency, o.age, cfg)
    ensures var s := r.Settled(key, o, failedAt, wait, cfg);
      s.heap == [Scheduled(RetryDue(failedAt, wait, cfg), key)] && s.retrying == {key}
  {
    assert Fold(1.0, false) == 0.7;
  }

  /** Deleted while its probe runs, and the probe works: it is in the pool again. */
  method DeletedInFlight(p: Proxy, config: PoolConfig, cfg: Config, probed: Proxy, wait: real, workedAt: real)
    returns (gone: bool, back: bool)
    requires CountryOk(p, config.countries) && cfg.Durations() && Jittered(wait, cfg) && workedAt >= wait
    ensures gone && back
  {
    var pool, loop := OneProbed(p, config, cfg, wait);
    Loop.RemoveOne(pool, p.addr);
    gone := !pool.Holds(p.addr);
    ghost var _ := loop.Settle(pool, probed.(addr := p.addr), true, workedAt, wait);
    back := pool.Holds(p.addr);
  }

  /** Deleted while it is being retried, and the next probe works: it is in the pool again. */
  method DeletedWhileRetrying(p: Proxy, config: PoolConfig, cfg: Config, probed: Proxy, wait: real, failedAt: real,
                              workedAt: real)
    returns (gone: bool, back: bool)
    requires CountryOk(p, config.countries) && cfg.Durations() && Jittered(wait, cfg)
    requires failedAt >= wait && workedAt >= RetryDue(failedAt, wait, cfg)
    requires ShouldRetry(0.7, probed.AvgRespTime(), failedAt, cfg)
    ensures gone && back
  {
    var pool, loop := OneRetried(p, config, cfg, probed, wait, failedAt);
    Loop.RemoveOne(pool, p.addr);
    gone := !pool.Holds(p.addr);
    var due := RetryDue(failedAt, wait, cfg);
    assert loop.heap[0].due <= due;
    var job := loop.Start(pool, due);
    assert job == Some(p.addr);
    ghost var _ := loop.Settle(pool, probed.(addr := p.addr), true, workedAt, wait);
    back := pool.Holds(p.addr);
  }
}
