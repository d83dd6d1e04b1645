/**
 The three stores (`src/persist.rs`): one durable record per address, folded from finished checks by an
 SQL upsert, by a hash map entry, and by a Lua script.
 */
module Stores {
  import opened Wrappers
  import opened Proxies
  import opened Reals

  const U32_MAX := 0xFFFF_FFFF
  const U64_MAX := 0xFFFF_FFFF_FFFF_FFFF

  type Types = map<Proto, Option<AnonLevel>>

  datatype Row = Row(types: Types, requests: nat, errors: nat, ewma: real, latency: real, uptime: nat)

  type Table = map<Address, Row>

  function Sample(p: Proxy): real {
    if p.IsWorking() then 1.0 else 0.0
  }

  function Uptime(p: Proxy): nat {
    if p.IsWorking() then 1 else 0
  }

  // ----- The fold the stores agree on -----

  function First(p: Proxy): Row {
    Row(p.types, p.requests, |p.errors|, Sample(p), p.AvgRespTime(), Uptime(p))
  }

  function Fold(row: Row, p: Proxy): Row {
    Row(if p.IsWorking() then p.types else row.types,
        row.requests + p.requests,
        row.errors + |p.errors|,
        0.3 * Sample(p) + 0.7 * row.ewma,
        if p.AvgRespTime() > 0.0 then 0.3 * p.AvgRespTime() + 0.7 * row.latency else row.latency,
        row.uptime + Uptime(p))
  }

  function Upserted(rows: Table, p: Proxy): Table {
    rows[p.addr := if p.addr in rows then Fold(rows[p.addr], p) else First(p)]
  }

  function Replay(history: seq<Proxy>): Table {
    if history == [] then map[] else Upserted(Replay(history[..|history| - 1]), history[|history| - 1])
  }

  // ----- The stores -----

  class SqliteStore {
    var rows: Table

    constructor ()
      ensures rows == map[]
    {
      rows := map[];
    }

    /** `INSERT .. ON CONFLICT(host, port) DO UPDATE SET ..`: every assignment sees the row as it was. */
    method Upsert(p: Proxy)
      modifies this
      ensures rows == Upserted(old(rows), p)
    {
      var excluded := Row(p.types, p.requests, |p.errors|, Sample(p), p.AvgRespTime(), Uptime(p));
      if p.addr in rows {
        var was := rows[p.addr];
        rows := rows[p.addr := Row(
          if excluded.types != map[] then excluded.types else was.types,
          was.requests + excluded.requests,
          was.errors + excluded.errors,
          0.3 * excluded.ewma + 0.7 * was.ewma,
          if excluded.latency > 0.0 then 0.3 * excluded.latency + 0.7 * was.latency else was.latency,
          was.uptime + excluded.uptime)];
      } else {
        rows := rows[p.addr := excluded];
      }
    }
  }

  function SaturatingAdd(a: nat, b: nat, max: nat): nat {
    if a + b > max then max else a + b
  }

  /** The row as fixed-width counters hold it. */
  function Capped(row: Row): Row {
    row.(requests := SaturatingAdd(row.requests, 0, U32_MAX), errors := SaturatingAdd(row.errors, 0, U32_MAX),
         uptime := SaturatingAdd(row.uptime, 0, U64_MAX))
  }

  function CappedTable(rows: Table): Table {
    map a | a in rows :: Capped(rows[a])
  }

  /** The counters of a proxy fit their fields. */
  predicate Fits(p: Proxy) {
    p.requests <= U32_MAX && |p.errors| <= U32_MAX
  }

  class MemoryStore {
    var rows: Table
    /** What the rows would be if the counters had no width. */
    ghost var exact: Table

    ghost predicate Valid()
      reads this
    {
      rows == CappedTable(exact)
    }

    constructor ()
      ensures Valid() && exact == map[]
    {
      rows, exact := map[], map[];
    }

    /** `entry .. and_modify .. or_insert_with`, field by field. */
    method Upsert(p: Proxy)
      requires Valid() && Fits(p)
      modifies this
      ensures Valid() && exact == Upserted(old(exact), p)
    {
      exact := Upserted(exact, p);
      if p.addr in rows {
        var rec := rows[p.addr];
        if p.types != map[] {
          rec := rec.(types := p.types);
        }
        rec := rec.(requests := SaturatingAdd(rec.requests, p.requests, U32_MAX));
        rec := rec.(errors := SaturatingAdd(rec.errors, |p.errors|, U32_MAX));
        rec := rec.(ewma := 0.3 * Sample(p) + 0.7 * rec.ewma);
        if p.AvgRespTime() > 0.0 {
          rec := rec.(latency := 0.3 * p.AvgRespTime() + 0.7 * rec.latency);
        }
        rec := rec.(uptime := SaturatingAdd(rec.uptime, Uptime(p), U64_MAX));
        rows := rows[p.addr := rec];
      } else {
        rows := rows[p.addr := Row(p.types, p.requests, |p.errors|, Sample(p), p.AvgRespTime(), Uptime(p))];
      }
    }
  }

  /** A Redis hash: any field may be missing, and the script treats a missing number as 0. */
  datatype Hash = Hash(
    types: Option<Types>,
    requests: Option<nat>,
    errors: Option<nat>,
    ewma: Option<real>,
    latency: Option<real>,
    uptime: Option<nat>)

  const NO_FIELDS := Hash(None, None, None, None, None, None)

  function Num(x: Option<nat>): nat {
    if x.Some? then x.value else 0
  }

  function Float(x: Option<real>): real {
    if x.Some? then x.value else 0.0
  }

  function HashOf(row: Row): Hash {
    Hash(Some(row.types), Some(row.requests), Some(row.errors), Some(row.ewma), Some(row.latency), Some(row.uptime))
  }

  function Hashes(rows: Table): map<Address, Hash> {
    map a | a in rows :: HashOf(rows[a])
  }

  class RedisStore {
    var hashes: map<Address, Hash>
    /** The rows that the hashes stand for. */
    ghost var rows: Table

    ghost predicate Valid()
      reads this
    {
      hashes == Hashes(rows)
    }

    constructor ()
      ensures Valid() && rows == map[]
    {
      hashes, rows := map[], map[];
    }

    /** The upsert script. */
    method Upsert(p: Proxy)
      requires Valid()
      modifies this
      ensures Valid() && rows == Upserted(old(rows), p)
    {
      var cur := if p.addr in hashes then hashes[p.addr] else NO_FIELDS;
      var first := cur == NO_FIELDS;
      var sample, latency := Sample(p), p.AvgRespTime();
      var ewma := if first then sample else 0.3 * sample + 0.7 * Float(cur.ewma);
      var avglat :=
        if first then latency
        else if latency > 0.0 then 0.3 * latency + 0.7 * Float(cur.latency)
        else Float(cur.latency);
      var types := if p.types != map[] then p.types else if cur.types.Some? then cur.types.value else p.types;
      hashes := hashes[p.addr := Hash(
        Some(types), Some(Num(cur.requests) + p.requests), Some(Num(cur.errors) + |p.errors|), Some(ewma),
        Some(avglat), Some(Num(cur.uptime) + Uptime(p)))];
      assert p.addr in rows ==> cur == HashOf(rows[p.addr]);
      assert p.types == map[] <==> p.types.Keys == {};
      rows := Upserted(rows, p);
    }
  }

  // ----- Three stores, one fold -----

  ghost predicate NothingOverflows(rows: Table) {
    forall a :: a in rows ==> rows[a].requests <= U32_MAX && rows[a].errors <= U32_MAX && rows[a].uptime <= U64_MAX
  }

  /** Capping a table changes nothing exactly when nothing overflows. */
  lemma CappedIsExact(rows: Table)
    ensures CappedTable(rows) == rows <==> NothingOverflows(rows)
  {
    if CappedTable(rows) == rows {
      forall a | a in rows
        ensures rows[a].requests <= U32_MAX && rows[a].errors <= U32_MAX && rows[a].uptime <= U64_MAX
      {
        assert Capped(rows[a]) == CappedTable(rows)[a] == rows[a];
      }
    }
  }

  /**
   The same checks give the same tables: SQL and Lua always, and the map exactly when no counter has
   run past its field -- where it has, it stands at the limit and all else still agrees.
   */
  method FoldThrice(history: seq<Proxy>) returns (sql: SqliteStore, memory: MemoryStore, redis: RedisStore)
    requires forall i :: 0 <= i < |history| ==> Fits(history[i])
    ensures sql.rows == Replay(history)
    ensures redis.hashes == Hashes(Replay(history))
    ensures memory.rows == CappedTable(Replay(history))
    ensures memory.rows == sql.rows <==> NothingOverflows(Replay(history))
  {
    sql := new SqliteStore();
    memory := new MemoryStore();
    redis := new RedisStore();
    for i := 0 to |history|
      invariant fresh(sql) && fresh(memory) && fresh(redis)
      invariant sql.rows == Replay(history[..i])
      invariant redis.Valid() && redis.rows == Replay(history[..i])
      invariant memory.Valid() && memory.exact == Replay(history[..i])
    {
      assert history[..i + 1][..i] == history[..i];
      sql.Upsert(history[i]);
      memory.Upsert(history[i]);
      redis.Upsert(history[i]);
    }
    assert history[..|history|] == history;
    CappedIsExact(Replay(history));
  }

  // ----- What a record says about its checks -----

  /** The checks of one address, in order. */
  function Of(history: seq<Proxy>, a: Address): seq<Proxy> {
    if history == [] then []
    else
      var init, last := Of(history[..|history| - 1], a), history[|history| - 1];
      if last.addr == a then init + [last] else init
  }

  function FoldAll(run: seq<Proxy>): Row
    requires run != []
  {
    if |run| == 1 then First(run[0]) else Fold(FoldAll(run[..|run| - 1]), run[|run| - 1])
  }

  /** A record depends on the checks of its own address only. */
  lemma {:induction false} RecordIsOwnChecks(history: seq<Proxy>, a: Address)
    ensures a in Replay(history) <==> Of(history, a) != []
    ensures a in Replay(history) ==> Replay(history)[a] == FoldAll(Of(history, a))
  {
    if history != [] {
      var init, last := history[..|history| - 1], history[|history| - 1];
      RecordIsOwnChecks(init, a);
      if last.addr == a {
        var run := Of(history, a);
        assert run[..|run| - 1] == Of(init, a);
      }
    }
  }

  // ----- The moving average -----

  /** 0.3 * 0.7^k for the check k from the end, and 0.7^n for the first. */
  function Weight(n: nat, i: nat): real
    requires i < n
  {
    if i == 0 then Power(n - 1) else 0.3 * Power(n - 1 - i)
  }

  /** The weighted samples of the first m of n checks. */
  function Weighted(run: seq<Proxy>, n: nat, m: nat): real
    requires m <= n && m <= |run|
  {
    if m == 0 then 0.0 else Weighted(run, n, m - 1) + Weight(n, m - 1) * Sample(run[m - 1])
  }

  /** One more check takes 0.7 off every earlier weight. */
  lemma {:induction false} OlderWeighsLess(run: seq<Proxy>, n: nat, m: nat)
    requires 0 < m <= n && m <= |run|
    ensures Weighted(run, n + 1, m) == 0.7 * Weighted(run, n, m)
  {
    if m > 1 {
      OlderWeighsLess(run, n, m - 1);
    } else {
      assert Weighted(run, n, 0) == 0.0 == Weighted(run, n + 1, 0);
    }
    assert Weight(n + 1, m - 1) == 0.7 * Weight(n, m - 1);
  }

  lemma {:induction false} WeightedPrefix(run: seq<Proxy>, n: nat, m: nat)
    requires m <= n && m < |run|
    ensures Weighted(run[..|run| - 1], n, m) == Weighted(run, n, m)
  {
    if m > 0 {
      WeightedPrefix(run, n, m - 1);
    }
  }

  /** The closed form of the stored success rate. */
  lemma {:induction false} EwmaClosedForm(run: seq<Proxy>)
    requires run != []
    ensures FoldAll(run).ewma == Weighted(run, |run|, |run|)
  {
    var n := |run|;
    if n == 1 {
      assert Weighted(run, 1, 1) == Weighted(run, 1, 0) + 1.0 * Sample(run[0]);
    } else {
      EwmaClosedForm(run[..n - 1]);
      WeightedPrefix(run, n - 1, n - 1);
      OlderWeighsLess(run, n - 1, n - 1);
      assert Weight(n, n - 1) == 0.3 * Power(0) == 0.3;
    }
  }

  function WeightSum(n: nat, m: nat): real
    requires m <= n
  {
    if m == 0 then 0.0 else WeightSum(n, m - 1) + Weight(n, m - 1)
  }

  /** The weights are a weighting: none negative, and together 1. */
  lemma {:induction false} WeightsSumToOne(n: nat, m: nat)
    requires 0 < m <= n
    ensures WeightSum(n, m) == Power(n - m)
    ensures Weight(n, m - 1) > 0.0
  {
    PowerRange(n - m);
    if m == 1 {
      assert WeightSum(n, 0) == 0.0;
    } else {
      WeightsSumToOne(n, m - 1);
      assert Power(n - m + 1) == 0.7 * Power(n - m);
    }
  }

  // ----- What every record keeps -----

  function SumRequests(run: seq<Proxy>): nat {
    if run == [] then 0 else SumRequests(run[..|run| - 1]) + run[|run| - 1].requests
  }

  function SumErrors(run: seq<Proxy>): nat {
    if run == [] then 0 else SumErrors(run[..|run| - 1]) + |run[|run| - 1].errors|
  }

  function CountWorking(run: seq<Proxy>): nat {
    if run == [] then 0 else CountWorking(run[..|run| - 1]) + Uptime(run[|run| - 1])
  }

  /** The counters are totals, the rate is a proportion, and uptime counts the working checks. */
  lemma {:induction false} RecordIsSound(run: seq<Proxy>)
    requires run != []
    ensures var row := FoldAll(run);
      && row.requests == SumRequests(run) && row.errors == SumErrors(run)
      && row.uptime == CountWorking(run) <= |run|
      && 0.0 <= row.ewma <= 1.0
  {
    if |run| == 1 {
      assert run[..0] == [];
    } else {
      RecordIsSound(run[..|run| - 1]);
    }
  }

  lemma {:induction false} ErrorsNeverExceedRequests(run: seq<Proxy>)
    requires run != [] && forall i :: 0 <= i < |run| ==> |run[i].errors| <= run[i].requests
    ensures FoldAll(run).errors <= FoldAll(run).requests
  {
    if |run| > 1 {
      ErrorsNeverExceedRequests(run[..|run| - 1]);
    }
  }

  /** The types are those of the last working check: a failing one never erases them. */
  lemma {:induction false} TypesAreLastConfirmed(run: seq<Proxy>, k: nat)
    requires k < |run| && run[k].IsWorking() && forall i :: k < i < |run| ==> !run[i].IsWorking()
    ensures FoldAll(run).types == run[k].types
  {
    var n := |run| - 1;
    if k < n {
      TypesAreLastConfirmed(run[..n], k);
    }
  }

  /** A latency is remembered until a positive one comes, and stays within the bounds of what was measured. */
  lemma {:induction false} LatencyStaysInBounds(run: seq<Proxy>, lo: real, hi: real)
    requires run != [] && forall i :: 0 <= i < |run| ==> lo <= run[i].AvgRespTime() <= hi
    ensures lo <= FoldAll(run).latency <= hi
  {
    if |run| > 1 {
      LatencyStaysInBounds(run[..|run| - 1], lo, hi);
    }
  }
}
