/**
 Aggregate statistics (`src/stats.rs`, with `percentile` from `src/proxy.rs`).

 A counter per key is a multiset. Checks finish in any order, so what matters is that the result does
 not depend on it.
 */
module Statistics {
  import opened Wrappers
  import opened Proxies
  import opened Reals

  const UNKNOWN_COUNTRY := "--"

  // ----- The error histogram -----

  /** The histogram key: all disallowed statuses share one. */
  function Bucket(e: ProxyError): ProxyError {
    if e.DisallowedStatus? then DisallowedStatus(0) else e
  }

  /** The errors that are a bucket of their own, taken out. */
  function Disallowed(m: multiset<ProxyError>): multiset<ProxyError> {
    m[ConnFailed := 0][Timeout := 0][Reset := 0][EmptyRecv := 0][BadStatus := 0][BadResponse := 0]
    [ErrorOnStream := 0][Resolve := 0]
  }

  function Histogram(m: multiset<ProxyError>): multiset<ProxyError> {
    (m - Disallowed(m))[DisallowedStatus(0) := |Disallowed(m)|]
  }

  lemma HistogramAt(m: multiset<ProxyError>, e: ProxyError)
    ensures Histogram(m)[e]
      == if !e.DisallowedStatus? then m[e] else if e == DisallowedStatus(0) then |Disallowed(m)| else 0
  {
  }

  lemma HistogramAdds(a: multiset<ProxyError>, b: multiset<ProxyError>)
    ensures Histogram(a + b) == Histogram(a) + Histogram(b)
  {
    assert Disallowed(a + b) == Disallowed(a) + Disallowed(b);
    forall e ensures Histogram(a + b)[e] == Histogram(a)[e] + Histogram(b)[e] {
      HistogramAt(a + b, e);
      HistogramAt(a, e);
      HistogramAt(b, e);
    }
    SameCounts(Histogram(a + b), Histogram(a), Histogram(b));
  }

  lemma SameCounts(m: multiset<ProxyError>, a: multiset<ProxyError>, b: multiset<ProxyError>)
    requires forall e :: m[e] == a[e] + b[e]
    ensures m == a + b
  {
  }

  lemma HistogramOfOne(e: ProxyError, n: nat)
    ensures Histogram(multiset{}[e := n]) == multiset{}[Bucket(e) := n]
  {
    var m: multiset<ProxyError> := multiset{}[e := n];
    if e.DisallowedStatus? {
      assert Disallowed(m) == m;
    } else {
      assert Disallowed(m) == multiset{};
    }
  }

  /** Taking all of one error out of what is left. */
  lemma HistogramStep(all: multiset<ProxyError>, left: multiset<ProxyError>, e: ProxyError)
    requires left <= all && e in left
    ensures Histogram(all - left[e := 0]) == Histogram(all - left) + multiset{}[Bucket(e) := left[e]]
  {
    HistogramOfOne(e, left[e]);
    HistogramAdds(all - left, multiset{}[e := left[e]]);
    MoveOver(all, left, e);
  }

  lemma MoveOver(all: multiset<ProxyError>, left: multiset<ProxyError>, e: ProxyError)
    requires left <= all
    ensures all - left[e := 0] == (all - left) + multiset{}[e := left[e]]
  {
  }

  lemma LessIsLeft(left: multiset<ProxyError>, e: ProxyError)
    requires e in left
    ensures |left[e := 0]| < |left|
  {
    assert left == left[e := 0] + multiset{}[e := left[e]];
  }

  // ----- Totals -----

  datatype Totals = Totals(
    total: nat,
    working: nat,
    byProtocol: multiset<Proto>,
    byAnonymity: multiset<AnonLevel>,
    byCountry: multiset<string>,
    errors: multiset<ProxyError>,
    times: multiset<real>)
  {
    function Plus(o: Totals): Totals {
      Totals(total + o.total, working + o.working, byProtocol + o.byProtocol, byAnonymity + o.byAnonymity,
             byCountry + o.byCountry, errors + o.errors, times + o.times)
    }
  }

  const NOTHING := Totals(0, 0, multiset{}, multiset{}, multiset{}, multiset{}, multiset{})

  function Country(p: Proxy): string {
    if p.country.Some? then p.country.value else UNKNOWN_COUNTRY
  }

  function Anonymity(p: Proxy): multiset<AnonLevel> {
    if Http in p.types && p.types[Http].Some? then multiset{p.types[Http].value} else multiset{}
  }

  function Times(p: Proxy): seq<real> {
    if p.AvgRespTime() > 0.0 then [p.AvgRespTime()] else []
  }

  /** What one proxy adds. */
  function Share(p: Proxy): Totals {
    Totals(1, if p.IsWorking() then 1 else 0, multiset(p.types.Keys), Anonymity(p), multiset{Country(p)},
           Histogram(p.errors), multiset(Times(p)))
  }

  /** What a list adds up to, one share after the other. */
  function Fold<P, T>(plus: (T, T) -> T, zero: T, share: P -> T, ps: seq<P>): T {
    if ps == [] then zero else plus(Fold(plus, zero, share, ps[..|ps| - 1]), share(ps[|ps| - 1]))
  }

  function Plus(a: Totals, b: Totals): Totals {
    a.Plus(b)
  }

  function Tally(ps: seq<Proxy>): Totals {
    Fold(Plus, NOTHING, Share, ps)
  }

  // ----- Order does not matter -----

  ghost predicate Commutes<T(!new)>(plus: (T, T) -> T, zero: T) {
    && (forall a :: plus(a, zero) == a)
    && (forall a, b, c :: Rearranges(plus, a, b, c))
  }

  ghost predicate Rearranges<T>(plus: (T, T) -> T, a: T, b: T, c: T) {
    plus(plus(a, b), c) == plus(a, plus(b, c)) == plus(plus(a, c), b)
  }

  lemma {:induction false} FoldAppend<P, T(!new)>(plus: (T, T) -> T, zero: T, share: P -> T, a: seq<P>, b: seq<P>)
    requires Commutes(plus, zero)
    ensures Fold(plus, zero, share, a + b) == plus(Fold(plus, zero, share, a), Fold(plus, zero, share, b))
  {
    if b == [] {
      assert a + b == a;
    } else {
      var n := |b| - 1;
      FoldAppend(plus, zero, share, a, b[..n]);
      assert (a + b)[..|a + b| - 1] == a + b[..n];
      assert Rearranges(plus, Fold(plus, zero, share, a), Fold(plus, zero, share, b[..n]), share(b[n]));
    }
  }

  lemma FoldMiddle<P, T(!new)>(plus: (T, T) -> T, zero: T, share: P -> T, a: seq<P>, p: P, b: seq<P>)
    requires Commutes(plus, zero)
    ensures Fold(plus, zero, share, a + [p] + b) == plus(Fold(plus, zero, share, a + b), share(p))
  {
    FoldAppend(plus, zero, share, a, b);
    FoldAppend(plus, zero, share, a + [p], b);
    FoldPush(plus, zero, share, a, p);
    assert Rearranges(plus, Fold(plus, zero, share, a), share(p), Fold(plus, zero, share, b));
  }

  lemma FoldPush<P, T>(plus: (T, T) -> T, zero: T, share: P -> T, a: seq<P>, p: P)
    ensures Fold(plus, zero, share, a + [p]) == plus(Fold(plus, zero, share, a), share(p))
  {
    assert (a + [p])[..|a|] == a;
  }

  /** What an order-blind fold makes of a list is what it makes of its multiset. */
  lemma {:induction false} FoldIgnoresOrder<P, T(!new)>(plus: (T, T) -> T, zero: T, share: P -> T, ps: seq<P>,
                                                        qs: seq<P>)
    requires Commutes(plus, zero) && multiset(ps) == multiset(qs)
    ensures Fold(plus, zero, share, ps) == Fold(plus, zero, share, qs)
    decreases |ps|
  {
    if ps == [] {
      assert |qs| == |multiset(qs)| == 0;
    } else {
      var n := |ps| - 1;
      var i := TakeOut(ps, qs);
      FoldIgnoresOrder(plus, zero, share, ps[..n], qs[..i] + qs[i + 1..]);
      FoldMiddle(plus, zero, share, qs[..i], qs[i], qs[i + 1..]);
    }
  }

  /** Where the last element of one order is in the other. */
  lemma TakeOut<P>(ps: seq<P>, qs: seq<P>) returns (i: nat)
    requires ps != [] && multiset(ps) == multiset(qs)
    ensures i < |qs| && qs[i] == ps[|ps| - 1] && qs == qs[..i] + [qs[i]] + qs[i + 1..]
    ensures multiset(ps[..|ps| - 1]) == multiset(qs[..i] + qs[i + 1..])
  {
    var n := |ps| - 1;
    var p := ps[n];
    assert ps == ps[..n] + [p];
    assert p in multiset(qs);
    i :| 0 <= i < |qs| && qs[i] == p;
    assert qs == qs[..i] + [p] + qs[i + 1..];
    assert multiset(ps[..n]) == multiset(ps) - multiset{p} == multiset(qs[..i] + qs[i + 1..]);
  }

  lemma PlusCommutes()
    ensures Commutes(Plus, NOTHING)
  {
    forall a, b, c ensures Rearranges(Plus, a, b, c) {
      PlusRearranges(a, b, c);
    }
  }

  lemma PlusRearranges(a: Totals, b: Totals, c: Totals)
    ensures a.Plus(b).Plus(c) == a.Plus(b.Plus(c)) == a.Plus(c).Plus(b)
  {
  }

  /** Every proxy has one country; only working ones count as working, and for a protocol at most once. */
  ghost predicate Consistent(t: Totals) {
    && t.total == |t.byCountry|
    && t.working <= t.total && |t.times| <= t.total
    && (forall proto :: t.byProtocol[proto] <= t.working)
    && |t.byAnonymity| <= t.byProtocol[Http]
  }

  lemma ShareIsConsistent(p: Proxy)
    ensures Consistent(Share(p)) && Share(p).total == 1
  {
    assert forall proto :: multiset(p.types.Keys)[proto] <= if p.IsWorking() then 1 else 0;
  }

  lemma PlusKeepsConsistent(a: Totals, b: Totals)
    requires Consistent(a) && Consistent(b)
    ensures Consistent(a.Plus(b))
  {
  }

  lemma {:induction false} TotalsAreConsistent(ps: seq<Proxy>)
    ensures Consistent(Tally(ps)) && Tally(ps).total == |ps|
  {
    if ps != [] {
      var init, last := ps[..|ps| - 1], ps[|ps| - 1];
      TotalsAreConsistent(init);
      ShareIsConsistent(last);
      PlusKeepsConsistent(Tally(init), Share(last));
      assert Tally(ps) == Tally(init).Plus(Share(last));
    }
  }

  // ----- Sorting and percentiles -----

  ghost predicate IsSorted(xs: seq<real>) {
    forall i, j :: 0 <= i <= j < |xs| ==> xs[i] <= xs[j]
  }

  function Insert(x: real, xs: seq<real>): seq<real> {
    if xs == [] || xs[|xs| - 1] <= x then xs + [x] else Insert(x, xs[..|xs| - 1]) + [xs[|xs| - 1]]
  }

  /** `sort_by(f64::total_cmp)`; of a sort only the result matters. */
  function Sorted(xs: seq<real>): seq<real> {
    if xs == [] then [] else Insert(xs[|xs| - 1], Sorted(xs[..|xs| - 1]))
  }

  lemma Init(xs: seq<real>)
    requires xs != []
    ensures multiset(xs) == multiset(xs[..|xs| - 1]) + multiset{xs[|xs| - 1]}
  {
    assert xs == xs[..|xs| - 1] + [xs[|xs| - 1]];
  }

  lemma {:induction false} InsertKeeps(x: real, xs: seq<real>)
    ensures multiset(Insert(x, xs)) == multiset(xs) + multiset{x}
  {
    if xs != [] && xs[|xs| - 1] > x {
      InsertKeeps(x, xs[..|xs| - 1]);
      Init(xs);
    }
  }

  lemma {:induction false} InsertSorts(x: real, xs: seq<real>)
    requires IsSorted(xs)
    ensures IsSorted(Insert(x, xs))
  {
    if xs != [] && xs[|xs| - 1] > x {
      var init, last := xs[..|xs| - 1], xs[|xs| - 1];
      InsertSorts(x, init);
      InsertKeeps(x, init);
      var r := Insert(x, init);
      forall i | 0 <= i < |r| ensures r[i] <= last {
        assert r[i] in multiset(r);
        assert r[i] in init || r[i] == x;
      }
    }
  }

  lemma {:induction false} SortedSorts(xs: seq<real>)
    ensures IsSorted(Sorted(xs)) && multiset(Sorted(xs)) == multiset(xs) && |Sorted(xs)| == |xs|
  {
    if xs != [] {
      var init, last := xs[..|xs| - 1], xs[|xs| - 1];
      assert xs == init + [last];
      SortedSorts(init);
      InsertSorts(last, Sorted(init));
      InsertKeeps(last, Sorted(init));
    }
    assert |multiset(Sorted(xs))| == |Sorted(xs)| && |multiset(xs)| == |xs|;
  }

  lemma LastIsGreatest(xs: seq<real>, x: real)
    requires IsSorted(xs) && x in multiset(xs)
    ensures xs != [] && x <= xs[|xs| - 1]
  {
    assert x in xs;
  }

  lemma Cancels(a: multiset<real>, b: multiset<real>, x: real)
    requires a + multiset{x} == b + multiset{x}
    ensures a == b
  {
    assert a == (a + multiset{x}) - multiset{x} && b == (b + multiset{x}) - multiset{x};
  }

  lemma {:induction false} SortedIsUnique(xs: seq<real>, ys: seq<real>)
    requires IsSorted(xs) && IsSorted(ys) && multiset(xs) == multiset(ys)
    ensures xs == ys
  {
    assert |multiset(xs)| == |xs| && |multiset(ys)| == |ys|;
    if xs != [] {
      var n := |xs| - 1;
      Init(xs);
      Init(ys);
      LastIsGreatest(ys, xs[n]);
      LastIsGreatest(xs, ys[n]);
      Cancels(multiset(xs[..n]), multiset(ys[..n]), xs[n]);
      SortedIsUnique(xs[..n], ys[..n]);
      assert xs == xs[..n] + [xs[n]] && ys == ys[..n] + [ys[n]];
    }
  }

  function Lerp(x: real, y: real, f: real): real {
    x + f * (y - x)
  }

  /** The value at a fractional rank. */
  function Interpolated(xs: seq<real>, rank: real): real
    requires 0.0 <= rank <= (|xs| - 1) as real
  {
    var lo := rank.Floor;
    var frac := rank - lo as real;
    Lerp(xs[lo], xs[if frac == 0.0 then lo else lo + 1], frac)
  }

  function Rank(q: real, last: nat): (r: real)
    requires 0.0 <= q <= 1.0
    ensures 0.0 <= r <= last as real
  {
    q * last as real
  }

  /** `percentile` of data in order. */
  function SortedPercentile(xs: seq<real>, q: real): real
    requires 0.0 <= q <= 1.0 && xs != []
  {
    Round2(Interpolated(xs, Rank(q, |xs| - 1)))
  }

  /** `percentile`. */
  function Percentile(data: seq<real>, q: real): real
    requires 0.0 <= q <= 1.0
  {
    SortedSorts(data);
    if data == [] then 0.0 else SortedPercentile(Sorted(data), q)
  }

  lemma LerpStays(x: real, y: real, f: real)
    requires x <= y && 0.0 <= f <= 1.0
    ensures x <= Lerp(x, y, f) <= y
  {
    Scale(0.0, f, y - x);
    Scale(f, 1.0, y - x);
  }

  lemma LerpGrows(x: real, y: real, f: real, g: real)
    requires x <= y && f <= g
    ensures Lerp(x, y, f) <= Lerp(x, y, g)
  {
    Scale(f, g, y - x);
  }

  lemma InterpolationStays(xs: seq<real>, rank: real)
    requires IsSorted(xs) && 0.0 <= rank <= (|xs| - 1) as real
    ensures var lo := rank.Floor;
      xs[lo] <= Interpolated(xs, rank) && Interpolated(xs, rank) <= xs[if rank == lo as real then lo else lo + 1]
  {
    var lo := rank.Floor;
    var hi := if rank == lo as real then lo else lo + 1;
    LerpStays(xs[lo], xs[hi], rank - lo as real);
  }

  lemma InterpolationGrows(xs: seq<real>, r: real, s: real)
    requires IsSorted(xs) && 0.0 <= r <= s <= (|xs| - 1) as real
    ensures Interpolated(xs, r) <= Interpolated(xs, s)
  {
    var lo := r.Floor;
    InterpolationStays(xs, r);
    InterpolationStays(xs, s);
    if s.Floor == lo && r != lo as real {
      LerpGrows(xs[lo], xs[lo + 1], r - lo as real, s - lo as real);
    }
  }

  lemma RankGrows(q: real, r: real, last: nat)
    requires 0.0 <= q <= r <= 1.0
    ensures Rank(q, last) <= Rank(r, last)
  {
    var n := last as real;
    Spread(q, r, n);
    assert Rank(q, last) == q * n && Rank(r, last) == r * n;
  }

  lemma Spread(q: real, r: real, n: real)
    requires q <= r && n >= 0.0
    ensures 0.0 <= r * n - q * n
  {
    assert r * n - q * n == (r - q) * n;
  }

  /** A percentile lies between the rounded extremes and grows with q. */
  lemma PercentileIsMonotone(xs: seq<real>, q: real, r: real)
    requires 0.0 <= q <= r <= 1.0 && IsSorted(xs) && xs != []
    ensures Round2(xs[0]) <= SortedPercentile(xs, q) <= SortedPercentile(xs, r) <= Round2(xs[|xs| - 1])
  {
    var a, b := Rank(q, |xs| - 1), Rank(r, |xs| - 1);
    RankGrows(q, r, |xs| - 1);
    InterpolationStays(xs, a);
    InterpolationStays(xs, b);
    InterpolationGrows(xs, a, b);
    Round2Monotone(xs[0], Interpolated(xs, a));
    Round2Monotone(Interpolated(xs, a), Interpolated(xs, b));
    Round2Monotone(Interpolated(xs, b), xs[|xs| - 1]);
  }

  lemma SortedIgnoresOrder(xs: seq<real>, ys: seq<real>)
    requires multiset(xs) == multiset(ys)
    ensures Sorted(xs) == Sorted(ys)
  {
    SortedSorts(xs);
    SortedSorts(ys);
    SortedIsUnique(Sorted(xs), Sorted(ys));
  }

  // ----- The mean -----

  function Mean(xs: seq<real>): real {
    if xs == [] then 0.0 else Round2(Sum(xs) / |xs| as real)
  }

  lemma {:induction false} SumAppend(a: seq<real>, b: seq<real>)
    ensures Sum(a + b) == Sum(a) + Sum(b)
  {
    if a == [] {
      assert a + b == b;
    } else {
      SumAppend(a[1..], b);
      assert (a + b)[1..] == a[1..] + b;
    }
  }

  lemma {:induction false} SumIgnoresOrder(xs: seq<real>, ys: seq<real>)
    requires multiset(xs) == multiset(ys)
    ensures Sum(xs) == Sum(ys)
    decreases |xs|
  {
    if xs == [] {
      assert |ys| == |multiset(ys)| == 0;
    } else {
      var n := |xs| - 1;
      var i := TakeOut(xs, ys);
      SumIgnoresOrder(xs[..n], ys[..i] + ys[i + 1..]);
      SumWithout(xs, n);
      SumWithout(ys, i);
      assert xs[..n] + xs[n + 1..] == xs[..n];
    }
  }

  lemma SumWithout(xs: seq<real>, i: nat)
    requires i < |xs|
    ensures Sum(xs) == Sum(xs[..i] + xs[i + 1..]) + xs[i]
  {
    var a, x, b := xs[..i], [xs[i]], xs[i + 1..];
    SumAppend(a, b);
    SumAppend(a, x + b);
    SumAppend(x, b);
    assert xs == a + (x + b) && x[1..] == [];
  }

  lemma MeanIgnoresOrder(xs: seq<real>, ys: seq<real>)
    requires multiset(xs) == multiset(ys)
    ensures Mean(xs) == Mean(ys)
  {
    assert |multiset(xs)| == |xs| && |multiset(ys)| == |ys|;
    SumIgnoresOrder(xs, ys);
  }

  // ----- The collector -----

  datatype Stats = Stats(counts: Totals, avg: real, p50: real, p90: real, p95: real)

  /** The result for one order of the response times. */
  function Summary(t: Totals, times: seq<real>): Stats {
    Stats(t, Mean(times), Percentile(times, 0.5), Percentile(times, 0.9), Percentile(times, 0.95))
  }

  /** The summary of these proxies, whichever order their times were collected in. */
  ghost predicate Summarizes(s: Stats, ps: seq<Proxy>) {
    exists times :: multiset(times) == Tally(ps).times && s == Summary(Tally(ps), times)
  }

  lemma TimesAdd(a: seq<real>, b: seq<real>)
    ensures multiset(a + b) == multiset(a) + multiset(b)
  {
  }

  class StatsCollector {
    var total: nat
    var working: nat
    var byProtocol: multiset<Proto>
    var byAnonymity: multiset<AnonLevel>
    var byCountry: multiset<string>
    var errors: multiset<ProxyError>
    var respTimes: seq<real>

    ghost function View(): Totals
      reads this
    {
      Totals(total, working, byProtocol, byAnonymity, byCountry, errors, multiset(respTimes))
    }

    constructor ()
      ensures View() == NOTHING
    {
      total, working := 0, 0;
      byProtocol, byAnonymity, byCountry, errors, respTimes := multiset{}, multiset{}, multiset{}, multiset{}, [];
    }

    method RecordTypes(types: map<Proto, Option<AnonLevel>>)
      modifies this`byProtocol, this`byAnonymity
      ensures byProtocol == old(byProtocol) + multiset(types.Keys)
      ensures byAnonymity == old(byAnonymity)
        + if Http in types && types[Http].Some? then multiset{types[Http].value} else multiset{}
    {
      var left := types.Keys;
      while left != {}
        invariant left <= types.Keys
        invariant byProtocol == old(byProtocol) + multiset(types.Keys - left)
        invariant byAnonymity == old(byAnonymity)
          + if Http in types && Http !in left && types[Http].Some? then multiset{types[Http].value} else multiset{}
        decreases |left|
      {
        var proto :| proto in left;
        byProtocol := byProtocol + multiset{proto};
        if proto == Http && types[proto].Some? {
          byAnonymity := byAnonymity + multiset{types[proto].value};
        }
        assert multiset(types.Keys - left) + multiset{proto} == multiset(types.Keys - (left - {proto}));
        left := left - {proto};
      }
      assert types.Keys - {} == types.Keys;
    }

    method RecordErrors(histogram: multiset<ProxyError>)
      modifies this`errors
      ensures errors == old(errors) + Histogram(histogram)
    {
      var left := histogram;
      assert histogram - left == multiset{} && Histogram(multiset{}) == multiset{};
      while left != multiset{}
        invariant left <= histogram
        invariant errors == old(errors) + Histogram(histogram - left)
        decreases |left|
      {
        var e :| e in left;
        HistogramStep(histogram, left, e);
        LessIsLeft(left, e);
        errors := errors + multiset{}[Bucket(e) := left[e]];
        left := left[e := 0];
      }
      assert histogram - multiset{} == histogram;
    }

    /** `record`. */
    method Record(p: Proxy)
      modifies this
      ensures total == old(total) + 1 && working == old(working) + (if p.IsWorking() then 1 else 0)
      ensures byProtocol == old(byProtocol) + multiset(p.types.Keys) && byAnonymity == old(byAnonymity) + Anonymity(p)
      ensures byCountry == old(byCountry) + multiset{Country(p)} && errors == old(errors) + Histogram(p.errors)
      ensures respTimes == old(respTimes) + Times(p)
    {
      RecordOutcome(p);
      RecordTypes(p.types);
      RecordMeasured(p);
    }

    method RecordMeasured(p: Proxy)
      modifies this`errors, this`respTimes
      ensures errors == old(errors) + Histogram(p.errors) && respTimes == old(respTimes) + Times(p)
    {
      RecordErrors(p.errors);
      RecordTime(p);
    }

    method RecordOutcome(p: Proxy)
      modifies this`total, this`working, this`byCountry
      ensures total == old(total) + 1 && working == old(working) + (if p.IsWorking() then 1 else 0)
      ensures byCountry == old(byCountry) + multiset{Country(p)}
    {
      total := total + 1;
      if p.IsWorking() {
        working := working + 1;
      }
      byCountry := byCountry + multiset{if p.country.Some? then p.country.value else UNKNOWN_COUNTRY};
    }

    method RecordTime(p: Proxy)
      modifies this`respTimes
      ensures respTimes == old(respTimes) + Times(p)
    {
      var art := p.AvgRespTime();
      if art > 0.0 {
        respTimes := respTimes + [art];
      }
    }

    /** Recording adds the proxy's share, and nothing else. */
    method RecordShare(p: Proxy)
      modifies this
      ensures View() == old(View()).Plus(Share(p))
    {
      Record(p);
      TimesAdd(old(respTimes), Times(p));
    }

    /** `finish`. */
    method Finish() returns (s: Stats)
      ensures s == Summary(View(), respTimes)
    {
      s := Stats(
        Totals(total, working, byProtocol, byAnonymity, byCountry, errors, multiset(respTimes)),
        if respTimes == [] then 0.0 else Round2(Sum(respTimes) / |respTimes| as real),
        Percentile(respTimes, 0.5), Percentile(respTimes, 0.9), Percentile(respTimes, 0.95));
    }
  }

  /** `Stats::from_proxies`. */
  method FromProxies(ps: seq<Proxy>) returns (s: Stats)
    ensures Summarizes(s, ps)
  {
    var c := new StatsCollector();
    for i := 0 to |ps|
      invariant fresh(c) && c.View() == Tally(ps[..i])
    {
      assert ps[..i + 1][..i] == ps[..i];
      c.RecordShare(ps[i]);
    }
    assert ps[..|ps|] == ps;
    s := c.Finish();
  }

  /** Whatever the order of the checks, the statistics are the same. */
  lemma StatsIgnoreOrder(ps: seq<Proxy>, qs: seq<Proxy>, s: Stats, t: Stats)
    requires multiset(ps) == multiset(qs) && Summarizes(s, ps) && Summarizes(t, qs)
    ensures s == t
  {
    PlusCommutes();
    FoldIgnoresOrder(Plus, NOTHING, Share, ps, qs);
    var xs :| multiset(xs) == Tally(ps).times && s == Summary(Tally(ps), xs);
    var ys :| multiset(ys) == Tally(qs).times && t == Summary(Tally(qs), ys);
    MeanIgnoresOrder(xs, ys);
    SortedIgnoresOrder(xs, ys);
    assert |multiset(xs)| == |xs| && |multiset(ys)| == |ys|;
  }

  lemma PercentilesAreOrdered(ps: seq<Proxy>, s: Stats)
    requires Summarizes(s, ps)
    ensures s.p50 <= s.p90 <= s.p95
  {
    var times :| multiset(times) == Tally(ps).times && s == Summary(Tally(ps), times);
    if times != [] {
      SortedSorts(times);
      PercentileIsMonotone(Sorted(times), 0.5, 0.9);
      PercentileIsMonotone(Sorted(times), 0.9, 0.95);
    }
  }
}
