/**
 The pool under concurrency (`get`, `wait_ready`, `put_inner`, `add`, `remove` and the importer in
 `src/server.rs`), one atomic step per lock section.

 `Notify` is an epoch: `notified()` takes a snapshot, `notify_waiters` moves the epoch on, and a waiter
 sleeps until the epoch has passed its snapshot. A push and the notification that follows it are two
 steps; `pending` counts the pushers in between.
 */
module Wakeups {
  import opened Wrappers
  import opened Proxies
  import opened Selection
  import opened Pools

  /** Where a task is inside `get` (for a scheme) or inside `wait_ready` (for a size). */
  datatype Pc =
    | Idle
    | Start(redraws: nat)
    | Armed(snap: nat, redraws: nat)
    | Empty(snap: nat, redraws: nat)
    | Waiting(snap: nat, redraws: nat)
    | LastLook
    | Probing(drawn: Proxy, redraws: nat)
    | Holding(leased: Proxy, how: How)
    | GaveUp
    | Ready

  datatype Want = Lease(scheme: Scheme) | Size(goal: nat)

  datatype Task = Task(want: Want, pc: Pc)

  datatype System = System(
    pool: seq<Pooled>,
    epoch: nat,
    pending: nat,
    exhausted: bool,
    source: seq<Proxy>,
    tasks: seq<Task>,
    books: Books)

  datatype Step =
    | Arm(i: nat)
    | Look(i: nat, ctx: SelectCtx)
    | CheckSource(i: nat)
    | LookAgain(i: nat, ctx: SelectCtx)
    | Wake(i: nat)
    | ProbeEnds(i: nat, live: bool, until: int)
    | GiveBack(i: nat, back: Proxy, blockedUntil: Option<int>)
    | Notify
    | Import
    | Finish
    | Insert(p: Proxy)
    | Delete(addr: Address)

  /** What the waiter is waiting for is there. */
  ghost predicate Satisfied(want: Want, pool: seq<Pooled>) {
    match want
    case Lease(scheme) => SomeServes(pool, scheme)
    case Size(n) => |pool| >= n
  }

  ghost predicate At(s: System, i: nat) {
    i < |s.tasks|
  }

  /** Which steps can be taken. */
  ghost predicate Enabled(s: System, step: Step) {
    match step
    case Arm(i) => At(s, i) && (s.tasks[i].pc.Idle? || s.tasks[i].pc.Start?)
    case Look(i, ctx) =>
      At(s, i) && s.tasks[i].pc.Armed? && (s.tasks[i].want.Lease? ==> ctx.scheme == s.tasks[i].want.scheme)
    case CheckSource(i) => At(s, i) && s.tasks[i].pc.Empty?
    case LookAgain(i, ctx) => At(s, i) && s.tasks[i].pc.LastLook? && s.tasks[i].want == Lease(ctx.scheme)
    case Wake(i) => At(s, i) && s.tasks[i].pc.Waiting? && s.epoch > s.tasks[i].pc.snap
    case ProbeEnds(i, _, _) => At(s, i) && s.tasks[i].pc.Probing?
    case GiveBack(i, back, _) => At(s, i) && s.tasks[i].pc.Holding? && back.addr == s.tasks[i].pc.leased.addr
    case Notify => s.pending > 0
    case Import => s.source != [] && !s.exhausted
    case Finish => s.source == [] && !s.exhausted
    case Insert(_) => true
    case Delete(_) => true
  }

  /** A dead draw is followed by another, eight times at most. */
  function AfterDeadProbe(redraws: nat): Pc {
    if redraws + 1 >= VERIFY_MAX_ATTEMPTS then GaveUp else Start(redraws + 1)
  }

  function Move(s: System, i: nat, pc: Pc): System
    requires i < |s.tasks|
  {
    s.(tasks := s.tasks[i := s.tasks[i].(pc := pc)])
  }

  /** A push, the notification still to come. */
  ghost function Push(s: System, p: Pooled, books: Books): System {
    s.(pool := s.pool + [p], pending := s.pending + 1, books := books)
  }

  ghost function Take(s: System, i: nat, k: nat, pc: Pc): System
    requires i < |s.tasks| && k < |s.pool|
  {
    Move(s, i, pc).(pool := SwapRemove(s.pool, k), books := s.books.Lease(s.pool[k].proxy.addr))
  }

  ghost function Return(s: System, i: nat, back: Proxy, blockedUntil: Option<int>, pc: Pc, config: PoolConfig): System
    requires i < |s.tasks|
  {
    var t := Move(s, i, pc);
    if Unhealthy(back, config) then t.(books := s.books.Evict(back.addr))
    else Push(t, Pooled(back, blockedUntil), s.books.Return(back.addr))
  }

  ghost function Admit(s: System, p: Proxy): System {
    Push(s, Pooled(p, None), s.books.Admit(p.addr))
  }

  ghost function Next(s: System, step: Step, config: PoolConfig): System
    requires Enabled(s, step)
  {
    match step
    case Arm(i) => Move(s, i, Armed(s.epoch, if s.tasks[i].pc.Start? then s.tasks[i].pc.redraws else 0))
    case Look(i, ctx) => LookNext(s, i, ctx, config)
    case CheckSource(i) =>
      var pc := s.tasks[i].pc;
      if !s.exhausted then Move(s, i, Waiting(pc.snap, pc.redraws))
      else if s.tasks[i].want.Lease? then Move(s, i, Pc.LastLook)
      else Move(s, i, Ready)
    case LookAgain(i, ctx) =>
      var k := BestFor(s.pool, ctx);
      if k.None? then Move(s, i, GaveUp) else Take(s, i, k.value, Holding(s.pool[k.value].proxy, How.LastLook))
    case Wake(i) => Move(s, i, Start(s.tasks[i].pc.redraws))
    case ProbeEnds(i, live, until) =>
      var pc := s.tasks[i].pc;
      if live then Move(s, i, Holding(pc.drawn, Probed))
      else Return(s, i, pc.drawn, Some(until), AfterDeadProbe(pc.redraws), config)
    case GiveBack(i, back, blockedUntil) => Return(s, i, back, blockedUntil, Idle, config)
    case Notify => s.(pending := s.pending - 1, epoch := s.epoch + 1)
    case Import =>
      var rest := s.(source := s.source[1..]);
      if CountryOk(s.source[0], config.countries) then Admit(rest, s.source[0]) else rest
    case Finish => s.(exhausted := true, pending := s.pending + 1)
    case Insert(p) =>
      if Count(s.pool, p.addr) > 0 then s else Admit(s, p)
    case Delete(addr) =>
      s.(pool := Without(s.pool, addr), books := s.books.Remove(addr, Count(s.pool, addr)))
  }

  /** `try_select` inside `get`, or the length test of `wait_ready`. */
  ghost function LookNext(s: System, i: nat, ctx: SelectCtx, config: PoolConfig): System
    requires i < |s.tasks| && s.tasks[i].pc.Armed?
  {
    var pc := s.tasks[i].pc;
    if s.tasks[i].want.Size? then
      if |s.pool| >= s.tasks[i].want.goal then Move(s, i, Ready) else Move(s, i, Empty(pc.snap, pc.redraws))
    else
      var k := BestFor(s.pool, ctx);
      if k.None? then Move(s, i, Empty(pc.snap, pc.redraws))
      else if config.verifyOnLease then Take(s, i, k.value, Probing(s.pool[k.value].proxy, pc.redraws))
      else Take(s, i, k.value, Holding(s.pool[k.value].proxy, Unverified))
  }

  // ----- What every task holds -----

  ghost function HeldBy(t: Task): multiset<Address> {
    match t.pc
    case Probing(p, _) => multiset{p.addr}
    case Holding(p, _) => multiset{p.addr}
    case _ => multiset{}
  }

  /** What the first n tasks hold. */
  ghost function HeldByFirst(tasks: seq<Task>, n: nat): multiset<Address>
    requires n <= |tasks|
  {
    if n == 0 then multiset{} else HeldByFirst(tasks, n - 1) + HeldBy(tasks[n - 1])
  }

  ghost function Held(tasks: seq<Task>): multiset<Address> {
    HeldByFirst(tasks, |tasks|)
  }

  lemma {:induction false} HeldBefore(tasks: seq<Task>, i: nat, t: Task, n: nat)
    requires n <= i < |tasks|
    ensures HeldByFirst(tasks[i := t], n) == HeldByFirst(tasks, n)
  {
    if n > 0 {
      HeldBefore(tasks, i, t, n - 1);
    }
  }

  lemma HeldNext(tasks: seq<Task>, n: nat, a: Address)
    requires 0 < n <= |tasks|
    ensures HeldByFirst(tasks, n)[a] == HeldByFirst(tasks, n - 1)[a] + HeldBy(tasks[n - 1])[a]
  {
  }

  lemma {:induction false} HeldFrom(tasks: seq<Task>, i: nat, t: Task, a: Address, n: nat)
    requires i < n <= |tasks|
    ensures HeldByFirst(tasks[i := t], n)[a] + HeldBy(tasks[i])[a] == HeldByFirst(tasks, n)[a] + HeldBy(t)[a]
  {
    var after := tasks[i := t];
    HeldNext(tasks, n, a);
    HeldNext(after, n, a);
    if n - 1 == i {
      HeldBefore(tasks, i, t, i);
    } else {
      HeldFrom(tasks, i, t, a, n - 1);
      assert after[n - 1] == tasks[n - 1];
    }
  }

  lemma HeldUpdate(tasks: seq<Task>, i: nat, t: Task, a: Address)
    requires i < |tasks|
    ensures Held(tasks[i := t])[a] + HeldBy(tasks[i])[a] == Held(tasks)[a] + HeldBy(t)[a]
  {
    HeldFrom(tasks, i, t, a, |tasks|);
  }

  // ----- The invariant -----

  /**
   A task that has looked and seen nothing, and whose snapshot is still current, is owed a
   notification as soon as there is something to see.
   */
  ghost predicate TaskOk(s: System, t: Task) {
    match t.pc
    case Start(redraws) => redraws < VERIFY_MAX_ATTEMPTS
    case Armed(snap, redraws) => snap <= s.epoch && redraws < VERIFY_MAX_ATTEMPTS
    case Empty(snap, redraws) =>
      && snap <= s.epoch && redraws < VERIFY_MAX_ATTEMPTS
      && (snap == s.epoch && Satisfied(t.want, s.pool) ==> s.pending > 0)
    case Waiting(snap, redraws) =>
      && snap <= s.epoch && redraws < VERIFY_MAX_ATTEMPTS
      && (snap == s.epoch && (Satisfied(t.want, s.pool) || s.exhausted) ==> s.pending > 0)
    case LastLook => s.exhausted && t.want.Lease?
    case Probing(p, redraws) => t.want.Lease? && p.Serves(t.want.scheme) && redraws < VERIFY_MAX_ATTEMPTS
    case Holding(p, how) => t.want.Lease? && p.Serves(t.want.scheme) && (how == How.LastLook ==> s.exhausted)
    case _ => true
  }

  ghost predicate TasksOk(s: System) {
    forall i :: 0 <= i < |s.tasks| ==> TaskOk(s, s.tasks[i])
  }

  /** Conservation: the books balance, and what they call leased is what the tasks hold. */
  ghost predicate Conserved(s: System) {
    s.books.Balance(s.pool) && forall a :: LeasedIsHeld(s, a)
  }

  ghost predicate LeasedIsHeld(s: System, a: Address) {
    s.books.leased[a] == Held(s.tasks)[a]
  }

  ghost predicate Inv(s: System) {
    TasksOk(s) && Conserved(s) && (s.exhausted ==> s.source == [])
  }

  // ----- Every step keeps it -----

  lemma ShrinkKeepsTasks(s: System, w: System)
    requires TasksOk(s) && w.tasks == s.tasks && w.epoch == s.epoch && w.pending == s.pending
    requires w.exhausted == s.exhausted
    requires forall want :: Satisfied(want, w.pool) ==> Satisfied(want, s.pool)
    ensures TasksOk(w)
  {
    forall i | 0 <= i < |w.tasks| ensures TaskOk(w, w.tasks[i]) {
      assert TaskOk(s, s.tasks[i]);
      assert Satisfied(w.tasks[i].want, w.pool) ==> Satisfied(w.tasks[i].want, s.pool);
    }
  }

  /** A pusher leaves a notification pending, which settles every debt. */
  lemma PushKeepsTasks(s: System, w: System)
    requires TasksOk(s) && w.tasks == s.tasks && w.epoch == s.epoch && w.pending > 0
    requires s.exhausted ==> w.exhausted
    ensures TasksOk(w)
  {
    forall i | 0 <= i < |w.tasks| ensures TaskOk(w, w.tasks[i]) {
      assert TaskOk(s, s.tasks[i]);
    }
  }

  /** A notification makes every snapshot stale. */
  lemma NotifyKeepsTasks(s: System, w: System)
    requires TasksOk(s) && w.tasks == s.tasks && w.epoch > s.epoch && w.exhausted == s.exhausted
    ensures TasksOk(w)
  {
    forall i | 0 <= i < |w.tasks| ensures TaskOk(w, w.tasks[i]) {
      assert TaskOk(s, s.tasks[i]);
    }
  }

  lemma MoveKeepsTasks(s: System, i: nat, pc: Pc)
    requires TasksOk(s) && i < |s.tasks| && TaskOk(s, s.tasks[i].(pc := pc))
    ensures TasksOk(Move(s, i, pc))
  {
    var w := Move(s, i, pc);
    forall j | 0 <= j < |w.tasks| ensures TaskOk(w, w.tasks[j]) {
      if j != i {
        assert TaskOk(s, s.tasks[j]);
      }
    }
  }

  lemma SwapRemoveShrinks(pool: seq<Pooled>, k: nat, want: Want)
    requires k < |pool|
    ensures Satisfied(want, SwapRemove(pool, k)) ==> Satisfied(want, pool)
  {
    if want.Lease? && SomeServes(SwapRemove(pool, k), want.scheme) {
      var j :| 0 <= j < |pool| - 1 && SwapRemove(pool, k)[j].proxy.Serves(want.scheme);
      assert SwapRemove(pool, k)[j] == pool[if j == k then |pool| - 1 else j];
    }
  }

  lemma {:induction false} WithoutIsPart(pool: seq<Pooled>, addr: Address)
    ensures |Without(pool, addr)| <= |pool|
    ensures forall j :: 0 <= j < |Without(pool, addr)| ==> Without(pool, addr)[j] in pool
  {
    if pool != [] {
      WithoutIsPart(pool[..|pool| - 1], addr);
    }
  }

  lemma WithoutShrinks(pool: seq<Pooled>, addr: Address, want: Want)
    ensures Satisfied(want, Without(pool, addr)) ==> Satisfied(want, pool)
  {
    WithoutIsPart(pool, addr);
    if want.Lease? && SomeServes(Without(pool, addr), want.scheme) {
      var j :| 0 <= j < |Without(pool, addr)| && Without(pool, addr)[j].proxy.Serves(want.scheme);
      var m :| 0 <= m < |pool| && pool[m] == Without(pool, addr)[j];
    }
  }

  lemma MoveConserves(s: System, i: nat, pc: Pc)
    requires Conserved(s) && i < |s.tasks| && HeldBy(s.tasks[i].(pc := pc)) == HeldBy(s.tasks[i])
    ensures Conserved(Move(s, i, pc))
  {
    forall a ensures LeasedIsHeld(Move(s, i, pc), a) {
      assert LeasedIsHeld(s, a);
      HeldUpdate(s.tasks, i, s.tasks[i].(pc := pc), a);
    }
  }

  lemma TakeKeeps(s: System, i: nat, k: nat, pc: Pc)
    requires TasksOk(s) && Conserved(s) && i < |s.tasks| && k < |s.pool|
    requires HeldBy(s.tasks[i]) == multiset{} && HeldBy(s.tasks[i].(pc := pc)) == multiset{s.pool[k].proxy.addr}
    requires TaskOk(s, s.tasks[i].(pc := pc)) && (pc.Probing? || pc.Holding?)
    ensures TasksOk(Take(s, i, k, pc)) && Conserved(Take(s, i, k, pc))
  {
    var a := s.pool[k].proxy.addr;
    var s1 := s.(pool := SwapRemove(s.pool, k), books := s.books.Lease(a));
    forall want ensures Satisfied(want, s1.pool) ==> Satisfied(want, s.pool) {
      SwapRemoveShrinks(s.pool, k, want);
    }
    ShrinkKeepsTasks(s, s1);
    MoveKeepsTasks(s1, i, pc);
    assert Move(s1, i, pc) == Take(s, i, k, pc);
    s.books.LeaseBalances(s.pool, k);
    forall x ensures LeasedIsHeld(Take(s, i, k, pc), x) {
      assert LeasedIsHeld(s, x);
      HeldUpdate(s.tasks, i, s.tasks[i].(pc := pc), x);
    }
  }

  lemma ReturnKeeps(s: System, i: nat, back: Proxy, blockedUntil: Option<int>, pc: Pc, config: PoolConfig)
    requires TasksOk(s) && Conserved(s) && i < |s.tasks|
    requires HeldBy(s.tasks[i]) == multiset{back.addr} && HeldBy(s.tasks[i].(pc := pc)) == multiset{}
    requires pc.Idle? || pc.GaveUp? || (pc.Start? && pc.redraws < VERIFY_MAX_ATTEMPTS)
    ensures var w := Return(s, i, back, blockedUntil, pc, config); TasksOk(w) && Conserved(w)
  {
    var a, p := back.addr, Pooled(back, blockedUntil);
    var w := Return(s, i, back, blockedUntil, pc, config);
    MoveKeepsTasks(s, i, pc);
    assert a in s.books.leased by {
      HeldUpdate(s.tasks, i, s.tasks[i].(pc := pc), a);
      assert LeasedIsHeld(s, a);
    }
    s.books.ReturnBalances(s.pool, p);
    var moved := Move(s, i, pc);
    if Unhealthy(back, config) {
      ShrinkKeepsTasks(moved, w);
    } else {
      PushKeepsTasks(moved, w);
    }
    forall x ensures LeasedIsHeld(w, x) {
      assert LeasedIsHeld(s, x);
      HeldUpdate(s.tasks, i, s.tasks[i].(pc := pc), x);
    }
  }

  lemma AdmitKeeps(s: System, p: Proxy)
    requires TasksOk(s) && Conserved(s)
    ensures TasksOk(Admit(s, p)) && Conserved(Admit(s, p))
  {
    PushKeepsTasks(s, Admit(s, p));
    s.books.AdmitBalances(s.pool, Pooled(p, None));
    forall x ensures LeasedIsHeld(Admit(s, p), x) {
      assert LeasedIsHeld(s, x);
    }
  }

  lemma SameLeasesConserve(s: System, w: System)
    requires Conserved(s) && w.tasks == s.tasks && w.books == s.books && w.pool == s.pool
    ensures Conserved(w)
  {
    forall x ensures LeasedIsHeld(w, x) {
      assert LeasedIsHeld(s, x);
    }
  }

  lemma DeleteKeeps(s: System, addr: Address, config: PoolConfig)
    requires TasksOk(s) && Conserved(s)
    ensures var w := Next(s, Delete(addr), config); TasksOk(w) && Conserved(w)
  {
    var w := Next(s, Delete(addr), config);
    forall want ensures Satisfied(want, w.pool) ==> Satisfied(want, s.pool) {
      WithoutShrinks(s.pool, addr, want);
    }
    ShrinkKeepsTasks(s, w);
    s.books.RemoveBalances(s.pool, addr);
    forall x ensures LeasedIsHeld(w, x) {
      assert LeasedIsHeld(s, x);
    }
  }

  lemma LookKeeps(s: System, i: nat, ctx: SelectCtx, config: PoolConfig)
    requires Inv(s) && Enabled(s, Look(i, ctx))
    ensures Inv(LookNext(s, i, ctx, config))
  {
    var t, k := s.tasks[i], BestFor(s.pool, ctx);
    assert TaskOk(s, t);
    if t.want.Size? {
      var pc := if |s.pool| >= t.want.goal then Ready else Empty(t.pc.snap, t.pc.redraws);
      MoveKeepsTasks(s, i, pc);
      MoveConserves(s, i, pc);
    } else {
      ChoiceIsEligible(s.pool, ctx);
      if k.None? {
        var pc := Empty(t.pc.snap, t.pc.redraws);
        MoveKeepsTasks(s, i, pc);
        MoveConserves(s, i, pc);
      } else {
        var p := s.pool[k.value].proxy;
        TakeKeeps(s, i, k.value, if config.verifyOnLease then Probing(p, t.pc.redraws) else Holding(p, Unverified));
      }
    }
  }

  lemma LookAgainKeeps(s: System, i: nat, ctx: SelectCtx, config: PoolConfig)
    requires Inv(s) && Enabled(s, LookAgain(i, ctx))
    ensures Inv(Next(s, LookAgain(i, ctx), config))
  {
    var k := BestFor(s.pool, ctx);
    ChoiceIsEligible(s.pool, ctx);
    assert TaskOk(s, s.tasks[i]);
    if k.None? {
      MoveKeepsTasks(s, i, GaveUp);
      MoveConserves(s, i, GaveUp);
    } else {
      TakeKeeps(s, i, k.value, Holding(s.pool[k.value].proxy, How.LastLook));
    }
  }

  lemma ControlKeeps(s: System, step: Step, config: PoolConfig)
    requires Inv(s) && Enabled(s, step) && (step.Arm? || step.CheckSource? || step.Wake?)
    ensures Inv(Next(s, step, config))
  {
    var w := Next(s, step, config);
    var i := step.i;
    assert TaskOk(s, s.tasks[i]);
    assert w == Move(s, i, w.tasks[i].pc);
    MoveKeepsTasks(s, i, w.tasks[i].pc);
    MoveConserves(s, i, w.tasks[i].pc);
  }

  lemma ProbeKeeps(s: System, i: nat, live: bool, until: int, config: PoolConfig)
    requires Inv(s) && Enabled(s, ProbeEnds(i, live, until))
    ensures Inv(Next(s, ProbeEnds(i, live, until), config))
  {
    var pc := s.tasks[i].pc;
    assert TaskOk(s, s.tasks[i]);
    if live {
      MoveKeepsTasks(s, i, Holding(pc.drawn, Probed));
      MoveConserves(s, i, Holding(pc.drawn, Probed));
    } else {
      ReturnKeeps(s, i, pc.drawn, Some(until), AfterDeadProbe(pc.redraws), config);
    }
  }

  /** A step of no task's own: a notification, the importer, an insertion or a removal. */
  lemma OutsideStepKeepsInv(s: System, step: Step, config: PoolConfig)
    requires Inv(s) && Enabled(s, step)
    requires step.Notify? || step.Import? || step.Finish? || step.Insert? || step.Delete?
    ensures Inv(Next(s, step, config))
  {
    match step
    case Notify =>
      NotifyKeepsTasks(s, Next(s, Notify, config));
      SameLeasesConserve(s, Next(s, Notify, config));
    case Import =>
      var rest := s.(source := s.source[1..]);
      ShrinkKeepsTasks(s, rest);
      SameLeasesConserve(s, rest);
      AdmitKeeps(rest, s.source[0]);
    case Finish =>
      PushKeepsTasks(s, Next(s, Finish, config));
      SameLeasesConserve(s, Next(s, Finish, config));
    case Insert(p) => AdmitKeeps(s, p);
    case Delete(addr) => DeleteKeeps(s, addr, config);
  }

  lemma StepKeepsInv(s: System, step: Step, config: PoolConfig)
    requires Inv(s) && Enabled(s, step)
    ensures Inv(Next(s, step, config))
  {
    match step
    case Arm(_) => ControlKeeps(s, step, config);
    case CheckSource(_) => ControlKeeps(s, step, config);
    case Wake(_) => ControlKeeps(s, step, config);
    case Look(i, ctx) => LookKeeps(s, i, ctx, config);
    case LookAgain(i, ctx) => LookAgainKeeps(s, i, ctx, config);
    case ProbeEnds(i, live, until) => ProbeKeeps(s, i, live, until, config);
    case GiveBack(i, back, blockedUntil) => ReturnKeeps(s, i, back, blockedUntil, Idle, config);
    case _ => OutsideStepKeepsInv(s, step, config);
  }

  // ----- Runs -----

  /** All tasks outside, nothing pooled: where `Pool::spawn` starts. */
  ghost predicate Initial(s: System) {
    && s.pool == [] && s.epoch == s.pending == 0 && !s.exhausted
    && (forall i :: 0 <= i < |s.tasks| ==> s.tasks[i].pc == Idle)
    && s.books == Books(multiset{}, multiset{}, multiset{}, multiset{}, 0, 0, 0)
  }

  ghost predicate RunOf(s: System, steps: seq<Step>, w: System, config: PoolConfig)
    decreases |steps|
  {
    if steps == [] then w == s
    else Enabled(s, steps[0]) && RunOf(Next(s, steps[0], config), steps[1..], w, config)
  }

  lemma {:induction false} NothingHeld(tasks: seq<Task>, n: nat)
    requires n <= |tasks| && forall i :: 0 <= i < |tasks| ==> tasks[i].pc == Idle
    ensures HeldByFirst(tasks, n) == multiset{}
  {
    if n > 0 {
      NothingHeld(tasks, n - 1);
    }
  }

  lemma InitialInv(s: System)
    requires Initial(s)
    ensures Inv(s)
  {
    NothingHeld(s.tasks, |s.tasks|);
    assert forall a :: s.books.Accounted(a, s.pool);
    assert forall a :: LeasedIsHeld(s, a);
  }

  lemma {:induction false} RunKeepsInv(s: System, steps: seq<Step>, w: System, config: PoolConfig)
    requires Inv(s) && RunOf(s, steps, w, config)
    ensures Inv(w)
    decreases |steps|
  {
    if steps != [] {
      StepKeepsInv(s, steps[0], config);
      RunKeepsInv(Next(s, steps[0], config), steps[1..], w, config);
    }
  }

  /**
   No lost wake-up: whenever a parked task's snapshot is current and nobody is about to notify, there
   is really nothing for it -- no eligible proxy now or, benches being no obstacle, at any later time,
   no full pool, no finished source.
   */
  lemma NoLostWakeup(s: System, steps: seq<Step>, w: System, config: PoolConfig, i: nat, ctx: SelectCtx)
    requires Initial(s) && RunOf(s, steps, w, config)
    requires i < |w.tasks| && w.tasks[i].pc.Waiting? && w.tasks[i].pc.snap == w.epoch && w.pending == 0
    ensures !w.exhausted
    ensures w.tasks[i].want.Size? ==> |w.pool| < w.tasks[i].want.goal
    ensures w.tasks[i].want == Lease(ctx.scheme) ==> BestFor(w.pool, ctx) == None
  {
    InitialInv(s);
    RunKeepsInv(s, steps, w, config);
    assert TaskOk(w, w.tasks[i]);
    ChoiceIsEligible(w.pool, ctx);
  }

  /**
   Conservation over every interleaving: an admitted address is pooled, held by a task, evicted or
   removed, as often as it was admitted; and every lease not held any more was given back once.
   */
  lemma NothingIsLost(s: System, steps: seq<Step>, w: System, config: PoolConfig)
    requires Initial(s) && RunOf(s, steps, w, config)
    ensures Addresses(w.pool) + Held(w.tasks) + w.books.evicted + w.books.removed == w.books.admitted
    ensures w.books.taken == w.books.given + |Held(w.tasks)|
    ensures w.books.drops == |w.books.evicted|
  {
    InitialInv(s);
    RunKeepsInv(s, steps, w, config);
    forall a ensures Held(w.tasks)[a] == w.books.leased[a] {
      assert LeasedIsHeld(w, a);
    }
    assert Held(w.tasks) == w.books.leased;
    w.books.BalanceIsSum(w.pool);
  }

  // ----- Which leases were probed -----

  /** A lease without a probe is an unverified one or comes from the last look, one with a probe a verified one. */
  ghost predicate HowOk(t: Task, config: PoolConfig) {
    t.pc.Holding? && t.pc.how != How.LastLook ==> (t.pc.how == Probed <==> config.verifyOnLease)
  }

  ghost predicate Traced(s: System, config: PoolConfig) {
    forall i :: 0 <= i < |s.tasks| ==> HowOk(s.tasks[i], config) && (s.tasks[i].pc.Probing? ==> config.verifyOnLease)
  }

  /** The step is one of task j's own. */
  predicate ActsOn(step: Step, j: nat) {
    (step.Arm? || step.Look? || step.CheckSource? || step.LookAgain? || step.Wake? || step.ProbeEnds? || step.GiveBack?)
    && step.i == j
  }

  /** The step leaves every other task where it is, and no task wants anything else after it. */
  ghost predicate OnlyTask(s: System, w: System, step: Step) {
    && |w.tasks| == |s.tasks|
    && forall j :: 0 <= j < |s.tasks| ==>
         w.tasks[j].want == s.tasks[j].want && (ActsOn(step, j) || w.tasks[j] == s.tasks[j])
  }

  lemma MoveIsLocal(s: System, i: nat, pc: Pc, w: System, step: Step)
    requires i < |s.tasks| && w.tasks == Move(s, i, pc).tasks && ActsOn(step, i)
    ensures OnlyTask(s, w, step)
  {
  }

  lemma StepIsLocal(s: System, step: Step, config: PoolConfig)
    requires Enabled(s, step)
    ensures OnlyTask(s, Next(s, step, config), step)
  {
    var w := Next(s, step, config);
    if
      || step.Arm? || step.Look? || step.CheckSource? || step.LookAgain? || step.Wake? || step.ProbeEnds?
      || step.GiveBack?
    {
      MoveIsLocal(s, step.i, w.tasks[step.i].pc, w, step);
    } else {
      assert w.tasks == s.tasks;
    }
  }

  lemma StepKeepsTraced(s: System, step: Step, config: PoolConfig)
    requires Enabled(s, step) && Traced(s, config)
    ensures Traced(Next(s, step, config), config)
  {
    StepIsLocal(s, step, config);
  }

  /** The task takes no step from k on but its last two: the test of the source and the last look. */
  ghost predicate OnlyLeaves(steps: seq<Step>, k: int, i: nat) {
    forall j :: k <= j < |steps| && j >= 0 && ActsOn(steps[j], i) ==> steps[j].CheckSource? || steps[j].LookAgain?
  }

  /** The task takes no step at all from k on. */
  ghost predicate Rests(steps: seq<Step>, k: int, i: nat) {
    forall j :: k <= j < |steps| && j >= 0 ==> !ActsOn(steps[j], i)
  }

  /** In its present call the task looked, and nothing in the pool served its scheme. */
  ghost predicate SawNothing(s: System, steps: seq<Step>, i: nat, config: PoolConfig) {
    exists k, m :: LooksInVain(s, steps, k, m, i, config)
  }

  ghost predicate LooksInVain(s: System, steps: seq<Step>, k: int, m: System, i: nat, config: PoolConfig) {
    && 0 <= k < |steps| && RunOf(s, steps[..k], m, config) && OnlyLeaves(steps, k + 1, i)
    && steps[k].Look? && steps[k].i == i && BestFor(m.pool, steps[k].ctx) == None
  }

  /** The task's latest step is the probe of this very proxy, which it had drawn, and it found it live. */
  ghost predicate ProbeSucceeded(s: System, steps: seq<Step>, i: nat, p: Proxy, config: PoolConfig) {
    exists k, m :: ProbesLive(s, steps, k, m, i, p, config)
  }

  ghost predicate ProbesLive(s: System, steps: seq<Step>, k: int, m: System, i: nat, p: Proxy, config: PoolConfig) {
    && 0 <= k < |steps| && RunOf(s, steps[..k], m, config) && Rests(steps, k + 1, i)
    && steps[k].ProbeEnds? && steps[k].i == i && steps[k].live
    && i < |m.tasks| && m.tasks[i].pc.Probing? && m.tasks[i].pc.drawn == p
  }

  /** Some step of the run is a probe of the task's. */
  ghost predicate ProbedEver(steps: seq<Step>, i: nat) {
    exists k :: 0 <= k < |steps| && steps[k].ProbeEnds? && steps[k].i == i
  }

  /** A run is one step more than the run before its last step. */
  lemma {:induction false} RunSplits(s: System, steps: seq<Step>, w: System, config: PoolConfig) returns (m: System)
    requires steps != [] && RunOf(s, steps, w, config)
    ensures RunOf(s, steps[..|steps| - 1], m, config)
    ensures Enabled(m, steps[|steps| - 1]) && w == Next(m, steps[|steps| - 1], config)
    decreases |steps|
  {
    if |steps| == 1 {
      m := s;
    } else {
      m := RunSplits(Next(s, steps[0], config), steps[1..], w, config);
      assert steps[1..][..|steps| - 2] == steps[..|steps| - 1][1..];
    }
  }

  /** What the place of a task says about the steps that led to it. */
  ghost predicate Explained(s: System, steps: seq<Step>, t: Task, i: nat, config: PoolConfig) {
    match t.pc
    case Empty(_, _) => t.want.Lease? ==> SawNothing(s, steps, i, config)
    case LastLook => SawNothing(s, steps, i, config)
    case Holding(p, how) =>
      && (how == How.LastLook ==> SawNothing(s, steps, i, config))
      && (how == Probed ==> ProbeSucceeded(s, steps, i, p, config))
    case _ => true
  }

  lemma VainLookStands(s: System, steps: seq<Step>, i: nat, config: PoolConfig)
    requires steps != [] && SawNothing(s, steps[..|steps| - 1], i, config)
    requires var last := steps[|steps| - 1]; ActsOn(last, i) ==> last.CheckSource? || last.LookAgain?
    ensures SawNothing(s, steps, i, config)
  {
    var most := steps[..|steps| - 1];
    var k, m :| LooksInVain(s, most, k, m, i, config);
    assert steps[..k] == most[..k];
    forall j | k + 1 <= j < |steps| && ActsOn(steps[j], i) ensures steps[j].CheckSource? || steps[j].LookAgain? {
      assert j < |most| ==> steps[j] == most[j];
    }
    assert LooksInVain(s, steps, k, m, i, config);
  }

  lemma ProbeStands(s: System, steps: seq<Step>, i: nat, p: Proxy, config: PoolConfig)
    requires steps != [] && ProbeSucceeded(s, steps[..|steps| - 1], i, p, config) && !ActsOn(steps[|steps| - 1], i)
    ensures ProbeSucceeded(s, steps, i, p, config)
  {
    var most := steps[..|steps| - 1];
    var k, m :| ProbesLive(s, most, k, m, i, p, config);
    assert steps[..k] == most[..k];
    forall j | k + 1 <= j < |steps| ensures !ActsOn(steps[j], i) {
      assert j < |most| ==> steps[j] == most[j];
    }
    assert ProbesLive(s, steps, k, m, i, p, config);
  }

  /** A step of somebody else's leaves the explanation as it is. */
  lemma OthersStepExplains(s: System, steps: seq<Step>, t: Task, i: nat, config: PoolConfig)
    requires steps != [] && Explained(s, steps[..|steps| - 1], t, i, config) && !ActsOn(steps[|steps| - 1], i)
    ensures Explained(s, steps, t, i, config)
  {
    if SawNothing(s, steps[..|steps| - 1], i, config) {
      VainLookStands(s, steps, i, config);
    }
    if t.pc.Holding? && t.pc.how == Probed {
      ProbeStands(s, steps, i, t.pc.leased, config);
    }
  }

  /** Its own step, from the place m, explains where the task gets to. */
  lemma OwnStepExplains(s: System, steps: seq<Step>, m: System, i: nat, config: PoolConfig)
    requires steps != [] && RunOf(s, steps[..|steps| - 1], m, config) && Enabled(m, steps[|steps| - 1])
    requires i < |m.tasks| && Explained(s, steps[..|steps| - 1], m.tasks[i], i, config)
    requires ActsOn(steps[|steps| - 1], i) && i < |Next(m, steps[|steps| - 1], config).tasks|
    ensures Explained(s, steps, Next(m, steps[|steps| - 1], config).tasks[i], i, config)
  {
    var n := |steps| - 1;
    var last := steps[n];
    match last
    case Look(_, ctx) =>
      if BestFor(m.pool, ctx) == None {
        assert LooksInVain(s, steps, n, m, i, config);
      }
    case CheckSource(_) =>
      if SawNothing(s, steps[..n], i, config) {
        VainLookStands(s, steps, i, config);
      }
    case LookAgain(_, _) =>
      VainLookStands(s, steps, i, config);
    case ProbeEnds(_, live, _) =>
      if live {
        assert ProbesLive(s, steps, n, m, i, m.tasks[i].pc.drawn, config);
      }
    case _ =>
  }

  lemma LastStepExplains(s: System, steps: seq<Step>, m: System, i: nat, config: PoolConfig)
    requires steps != [] && RunOf(s, steps[..|steps| - 1], m, config) && Enabled(m, steps[|steps| - 1])
    requires i < |m.tasks| && Explained(s, steps[..|steps| - 1], m.tasks[i], i, config)
    ensures var w := Next(m, steps[|steps| - 1], config);
      i < |w.tasks| && Explained(s, steps, w.tasks[i], i, config)
  {
    var last := steps[|steps| - 1];
    StepIsLocal(m, last, config);
    if ActsOn(last, i) {
      OwnStepExplains(s, steps, m, i, config);
    } else {
      OthersStepExplains(s, steps, m.tasks[i], i, config);
    }
  }

  lemma {:induction false} RunExplains(s: System, steps: seq<Step>, w: System, config: PoolConfig, i: nat)
    requires Initial(s) && RunOf(s, steps, w, config) && i < |w.tasks|
    ensures Traced(w, config) && |w.tasks| == |s.tasks| && Explained(s, steps, w.tasks[i], i, config)
    decreases |steps|
  {
    if steps != [] {
      var m := RunSplits(s, steps, w, config);
      StepIsLocal(m, steps[|steps| - 1], config);
      RunExplains(s, steps[..|steps| - 1], m, config, i);
      StepKeepsTraced(m, steps[|steps| - 1], config);
      LastStepExplains(s, steps, m, i, config);
    }
  }

  /**
   Which leases were probed, over every run: those that verification is on for and that the last look
   did not hand out. The probe of a probed one is the task's latest step, and is of the proxy leased.
   And the last look hands out a proxy only after the source has run out, and after a look of the same
   call that found nothing.
   */
  lemma WhoWasProbed(s: System, steps: seq<Step>, w: System, config: PoolConfig, i: nat)
    requires Initial(s) && RunOf(s, steps, w, config) && i < |w.tasks| && w.tasks[i].pc.Holding?
    ensures var how := w.tasks[i].pc.how;
      && (how == Probed <==> config.verifyOnLease && how != How.LastLook)
      && (how == Probed ==> ProbeSucceeded(s, steps, i, w.tasks[i].pc.leased, config))
      && (how == How.LastLook ==> w.exhausted && SawNothing(s, steps, i, config))
  {
    InitialInv(s);
    RunKeepsInv(s, steps, w, config);
    RunExplains(s, steps, w, config, i);
    assert TaskOk(w, w.tasks[i]) && HowOk(w.tasks[i], config);
  }

  lemma {:induction false} RunsJoin(s: System, front: seq<Step>, m: System, back: seq<Step>, w: System,
                                    config: PoolConfig)
    requires RunOf(s, front, m, config) && RunOf(m, back, w, config)
    ensures RunOf(s, front + back, w, config)
    decreases |front|
  {
    if front == [] {
      assert front + back == back;
    } else {
      RunsJoin(Next(s, front[0], config), front[1..], m, back, w, config);
      assert (front + back)[1..] == front[1..] + back;
    }
  }

  lemma RunOfOne(s: System, step: Step, config: PoolConfig)
    requires Enabled(s, step)
    ensures RunOf(s, [step], Next(s, step, config), config)
  {
    assert RunOf(Next(s, step, config), [step][1..], Next(s, step, config), config);
  }

  /** The first half: the task looks at an empty pool, and only then does its proxy arrive. */
  lemma LooksTooEarly(s: System, p: Proxy, ctx: SelectCtx, config: PoolConfig) returns (w: System)
    requires Initial(s) && s.tasks == [Task(Lease(ctx.scheme), Idle)] && s.source == [p]
    requires CountryOk(p, config.countries)
    ensures RunOf(s, [Arm(0)] + [Look(0, ctx)] + [Import], w, config)
    ensures w.tasks == [Task(Lease(ctx.scheme), Empty(0, 0))] && w.pool == [Pooled(p, None)]
    ensures w.source == [] && !w.exhausted
  {
    ChoiceIsEligible([], ctx);
    var s1 := Next(s, Arm(0), config);
    var s2 := Next(s1, Look(0, ctx), config);
    assert s2.tasks == [Task(Lease(ctx.scheme), Empty(0, 0))];
    w := Next(s2, Import, config);
    RunOfOne(s, Arm(0), config);
    RunOfOne(s1, Look(0, ctx), config);
    RunOfOne(s2, Import, config);
    RunsJoin(s, [Arm(0)], s1, [Look(0, ctx)], s2, config);
    RunsJoin(s, [Arm(0)] + [Look(0, ctx)], s2, [Import], w, config);
  }

  /** The second half: the source is finished by now, so the task takes the proxy as it is. */
  lemma TakesItUnprobed(s: System, p: Proxy, ctx: SelectCtx, config: PoolConfig) returns (w: System)
    requires s.tasks == [Task(Lease(ctx.scheme), Empty(0, 0))] && s.pool == [Pooled(p, None)]
    requires s.source == [] && !s.exhausted && p.Serves(ctx.scheme)
    ensures RunOf(s, [Finish] + [CheckSource(0)] + [LookAgain(0, ctx)], w, config)
    ensures w.tasks == [Task(Lease(ctx.scheme), Holding(p, How.LastLook))]
  {
    var s1 := Next(s, Finish, config);
    var s2 := Next(s1, CheckSource(0), config);
    assert s2.pool == [Pooled(p, None)];
    ChoiceIsEligible(s2.pool, ctx);
    w := Next(s2, LookAgain(0, ctx), config);
    RunOfOne(s, Finish, config);
    RunOfOne(s1, CheckSource(0), config);
    RunOfOne(s2, LookAgain(0, ctx), config);
    RunsJoin(s, [Finish], s1, [CheckSource(0)], s2, config);
    RunsJoin(s, [Finish] + [CheckSource(0)], s2, [LookAgain(0, ctx)], w, config);
  }

  /**
   With verification on, a run that ends in a lease nobody probed: the only proxy and the end of the
   source arrive right after the first look.
   */
  lemma LastLookSkipsTheProbe(s: System, p: Proxy, ctx: SelectCtx, config: PoolConfig)
      returns (steps: seq<Step>, w: System)
    requires Initial(s) && s.tasks == [Task(Lease(ctx.scheme), Idle)] && s.source == [p]
    requires p.Serves(ctx.scheme) && CountryOk(p, config.countries) && config.verifyOnLease
    ensures RunOf(s, steps, w, config) && !ProbedEver(steps, 0)
    ensures w.tasks == [Task(Lease(ctx.scheme), Holding(p, How.LastLook))]
  {
    var m := LooksTooEarly(s, p, ctx, config);
    w := TakesItUnprobed(m, p, ctx, config);
    var front, back := [Arm(0)] + [Look(0, ctx)] + [Import], [Finish] + [CheckSource(0)] + [LookAgain(0, ctx)];
    RunsJoin(s, front, m, back, w, config);
    steps := front + back;
  }
}
