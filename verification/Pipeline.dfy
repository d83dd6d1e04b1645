/**
 The check pipeline (`check_stream` in `src/broker.rs`) as a transition system.

 The loop that takes items from the source, the check tasks and the consumer interleave freely. A task
 owns its permit from before it is spawned until it ends. Only the wait for the check can be
 cancelled: once the check has finished, the rest of the task runs to its end.
 */
module Pipeline {
  import opened Wrappers

  /** Where one check task is. A slot is what `fetch_add` on the shared counter returned. */
  datatype Phase =
    | Checking
    | Checked(passes: bool)
    | Recorded
    | Over(slot: nat)
    | Reserved(slot: nat)
    | Delivered(slot: nat)
    | Failed
    | Emitted(slot: nat)
    | Surplus(slot: nat)
    | Aborted

  /** Where the loop over the source is. */
  datatype Loop = Fetch | Got | NeedsPermit | Draining | Finished

  /** Items are numbered in source order; task i checks item i. `stats` counts the records of each item. */
  datatype State = State(
    items: nat,
    maxConn: nat,
    limit: Option<nat>,
    loop: Loop,
    permits: nat,
    tasks: seq<Phase>,
    sent: nat,
    cancelled: bool,
    consumer: bool,
    stats: multiset<nat>,
    emitted: seq<nat>)

  datatype Step =
    | FetchItem
    | TestStop
    | Spawn
    | Drained
    | ConsumerLeaves
    | Abort(i: nat)
    | CheckEnds(i: nat, passes: bool)
    | Record(i: nat)
    | Reserve(i: nat)
    | CancelSurplus(i: nat)
    | Send(i: nat)
    | CancelAtLimit(i: nat)

  predicate Ended(p: Phase) {
    p.Failed? || p.Emitted? || p.Surplus? || p.Aborted?
  }

  predicate LimitReached(s: State) {
    s.limit.Some? && s.sent >= s.limit.value
  }

  predicate Enabled(s: State, step: Step) {
    match step
    case FetchItem => s.loop == Fetch
    case TestStop => s.loop == Got
    case Spawn => s.loop == NeedsPermit && s.permits > 0
    case Drained => s.loop == Draining && forall i :: 0 <= i < |s.tasks| ==> Ended(s.tasks[i])
    case ConsumerLeaves => true
    case Abort(i) => i < |s.tasks| && s.tasks[i].Checking? && s.cancelled
    case CheckEnds(i, _) => i < |s.tasks| && s.tasks[i].Checking?
    case Record(i) => i < |s.tasks| && s.tasks[i].Checked?
    case Reserve(i) => i < |s.tasks| && s.tasks[i].Recorded?
    case CancelSurplus(i) => i < |s.tasks| && s.tasks[i].Over?
    case Send(i) => i < |s.tasks| && s.tasks[i].Reserved?
    case CancelAtLimit(i) => i < |s.tasks| && s.tasks[i].Delivered?
  }

  function Move(s: State, i: nat, p: Phase): State
    requires i < |s.tasks|
  {
    s.(tasks := s.tasks[i := p])
  }

  /** The task ends and its permit is dropped. */
  function End(s: State, i: nat, p: Phase): State
    requires i < |s.tasks|
  {
    Move(s, i, p).(permits := s.permits + 1)
  }

  function Next(s: State, step: Step): State
    requires Enabled(s, step)
  {
    match step
    case FetchItem => s.(loop := if |s.tasks| < s.items then Got else Draining)
    case TestStop => s.(loop := if s.cancelled || LimitReached(s) then Draining else NeedsPermit)
    case Spawn => s.(loop := Fetch, permits := s.permits - 1, tasks := s.tasks + [Checking])
    case Drained => s.(loop := Finished)
    case ConsumerLeaves => s.(consumer := false, cancelled := true)
    case Abort(i) => End(s, i, Aborted)
    case CheckEnds(i, passes) => Move(s, i, Checked(passes))
    case Record(i) =>
      var t := s.(stats := s.stats + multiset{i});
      if s.tasks[i].passes then Move(t, i, Recorded) else End(t, i, Failed)
    case Reserve(i) =>
      var n := s.sent;
      var t := s.(sent := n + 1);
      if s.limit.Some? && n >= s.limit.value then Move(t, i, Over(n)) else Move(t, i, Reserved(n))
    case CancelSurplus(i) => End(s.(cancelled := true), i, Surplus(s.tasks[i].slot))
    case Send(i) =>
      Move(if s.consumer then s.(emitted := s.emitted + [i]) else s, i, Delivered(s.tasks[i].slot))
    case CancelAtLimit(i) =>
      var n := s.tasks[i].slot;
      End(if s.limit.Some? && n + 1 >= s.limit.value then s.(cancelled := true) else s, i, Emitted(n))
  }

  // ----- Counting tasks -----

  datatype Kind = InFlight | Slotted | Below | LimitOrLater | Sent

  predicate HasSlot(p: Phase) {
    p.Over? || p.Reserved? || p.Delivered? || p.Emitted? || p.Surplus?
  }

  predicate IsSent(p: Phase) {
    p.Delivered? || p.Emitted?
  }

  predicate IsRecorded(p: Phase) {
    p.Recorded? || HasSlot(p) || p.Failed?
  }

  /** `Below`: the slot is under the limit; `LimitOrLater`: it is the limit's last or past it. */
  predicate Is(kind: Kind, p: Phase, limit: nat) {
    match kind
    case InFlight => !Ended(p)
    case Slotted => HasSlot(p)
    case Below => HasSlot(p) && p.slot < limit
    case LimitOrLater => HasSlot(p) && p.slot + 1 >= limit
    case Sent => IsSent(p)
  }

  function Bit(b: bool): nat {
    if b then 1 else 0
  }

  function Count(tasks: seq<Phase>, kind: Kind, limit: nat): nat {
    if tasks == [] then 0
    else Count(tasks[..|tasks| - 1], kind, limit) + Bit(Is(kind, tasks[|tasks| - 1], limit))
  }

  lemma {:induction false} CountMove(tasks: seq<Phase>, i: nat, p: Phase, kind: Kind, limit: nat)
    requires i < |tasks|
    ensures Count(tasks[i := p], kind, limit) + Bit(Is(kind, tasks[i], limit))
         == Count(tasks, kind, limit) + Bit(Is(kind, p, limit))
  {
    var n := |tasks| - 1;
    if i == n {
      assert tasks[i := p][..n] == tasks[..n];
    } else {
      CountMove(tasks[..n], i, p, kind, limit);
      assert tasks[i := p][..n] == tasks[..n][i := p];
    }
  }

  lemma CountSpawn(tasks: seq<Phase>, kind: Kind, limit: nat)
    ensures Count(tasks + [Checking], kind, limit) == Count(tasks, kind, limit) + Bit(kind == InFlight)
  {
    assert (tasks + [Checking])[..|tasks|] == tasks;
  }

  lemma {:induction false} CountAll(tasks: seq<Phase>, a: Kind, b: Kind, limit: nat)
    requires forall i :: 0 <= i < |tasks| ==> (Is(a, tasks[i], limit) ==> Is(b, tasks[i], limit))
    ensures Count(tasks, a, limit) <= Count(tasks, b, limit)
  {
    if tasks != [] {
      CountAll(tasks[..|tasks| - 1], a, b, limit);
    }
  }

  lemma {:induction false} CountFinds(tasks: seq<Phase>, kind: Kind, limit: nat)
    requires Count(tasks, kind, limit) > 0
    ensures exists i :: 0 <= i < |tasks| && Is(kind, tasks[i], limit)
  {
    if !Is(kind, tasks[|tasks| - 1], limit) {
      CountFinds(tasks[..|tasks| - 1], kind, limit);
      var i :| 0 <= i < |tasks| - 1 && Is(kind, tasks[..|tasks| - 1][i], limit);
      assert Is(kind, tasks[i], limit);
    }
  }

  // ----- The invariant -----

  /** In-flight checks and free permits make up `max_conn`. */
  ghost predicate PermitsOk(s: State) {
    s.permits + Count(s.tasks, InFlight, 0) == s.maxConn
  }

  /** The slots handed out are 0, 1, 2 and so on: so many below any bound, so many from it on. */
  ghost predicate SlotsOk(s: State) {
    && Count(s.tasks, Slotted, 0) == s.sent
    && (s.limit.Some? ==>
          && Count(s.tasks, Below, s.limit.value) == Min(s.limit.value, s.sent)
          && Count(s.tasks, LimitOrLater, s.limit.value) == Late(s.limit.value, s.sent))
  }

  /** How many of the slots 0 .. sent - 1 are the limit's last or past it. */
  function Late(limit: nat, sent: nat): nat {
    if limit == 0 then sent else if sent < limit then 0 else sent + 1 - limit
  }

  ghost predicate EmittedOk(s: State) {
    |s.emitted| <= Count(s.tasks, Sent, 0) && (s.consumer ==> |s.emitted| == Count(s.tasks, Sent, 0))
  }

  /** Recorded once when its check has ended, delivered at most once when it was sent. */
  ghost predicate TraceOk(s: State, i: nat) {
    i < |s.tasks| ==> s.stats[i] == Bit(IsRecorded(s.tasks[i])) && multiset(s.emitted)[i] <= Bit(IsSent(s.tasks[i]))
  }

  /** What one task's phase says about its slot and about the cancellation. */
  ghost predicate PhaseOk(p: Phase, limit: Option<nat>, cancelled: bool) {
    && (p.Aborted? || p.Surplus? ==> cancelled)
    && (limit.None? ==> !p.Over? && !p.Surplus?)
    && (limit.Some? && (p.Reserved? || IsSent(p)) ==> p.slot < limit.value)
    && (limit.Some? && (p.Over? || p.Surplus?) ==> p.slot >= limit.value)
    && (limit.Some? && p.Emitted? && p.slot + 1 >= limit.value ==> cancelled)
  }

  ghost predicate TaskOk(s: State, i: nat) {
    i < |s.tasks| ==> PhaseOk(s.tasks[i], s.limit, s.cancelled)
  }

  /** Nothing is recorded or delivered but what a task checked. */
  ghost predicate TracesOk(s: State) {
    && (forall i :: TraceOk(s, i))
    && (forall i :: i >= |s.tasks| ==> s.stats[i] == 0 && multiset(s.emitted)[i] == 0)
  }

  ghost predicate TasksOk(s: State) {
    TracesOk(s) && forall i :: TaskOk(s, i)
  }

  ghost predicate LoopOk(s: State) {
    && |s.tasks| <= s.items
    && (s.loop == Got || s.loop == NeedsPermit ==> |s.tasks| < s.items)
    && (s.loop == Draining || s.loop == Finished ==> |s.tasks| == s.items || s.cancelled || LimitReached(s))
    && (s.loop == Finished ==> forall i :: 0 <= i < |s.tasks| ==> Ended(s.tasks[i]))
    && (s.cancelled && s.consumer ==> LimitReached(s))
    && (!s.consumer ==> s.cancelled)
  }

  ghost predicate Inv(s: State) {
    PermitsOk(s) && SlotsOk(s) && EmittedOk(s) && TasksOk(s) && LoopOk(s)
  }

  // ----- Every step keeps it -----

  predicate IsTaskStep(step: Step) {
    step.Abort? || step.CheckEnds? || step.Record? || step.Reserve? || step.CancelSurplus? || step.Send?
    || step.CancelAtLimit?
  }

  lemma TaskStepKeepsPermits(s: State, step: Step)
    requires PermitsOk(s) && Enabled(s, step) && IsTaskStep(step)
    ensures PermitsOk(Next(s, step))
  {
    var w, i := Next(s, step), step.i;
    assert w.tasks == s.tasks[i := w.tasks[i]];
    assert w.permits == s.permits + Bit(!Ended(s.tasks[i])) - Bit(!Ended(w.tasks[i]));
    CountMove(s.tasks, i, w.tasks[i], InFlight, 0);
  }

  lemma TaskStepKeepsEmitted(s: State, step: Step)
    requires EmittedOk(s) && Enabled(s, step) && IsTaskStep(step)
    ensures EmittedOk(Next(s, step))
  {
    var w, i := Next(s, step), step.i;
    assert w.tasks == s.tasks[i := w.tasks[i]];
    CountMove(s.tasks, i, w.tasks[i], Sent, 0);
  }

  lemma ReserveKeepsSlots(s: State, i: nat)
    requires SlotsOk(s) && Enabled(s, Reserve(i))
    ensures SlotsOk(Next(s, Reserve(i)))
  {
    var p := Next(s, Reserve(i)).tasks[i];
    assert HasSlot(p) && p.slot == s.sent;
    CountMove(s.tasks, i, p, Slotted, 0);
    if s.limit.Some? {
      CountMove(s.tasks, i, p, Below, s.limit.value);
      CountMove(s.tasks, i, p, LimitOrLater, s.limit.value);
    }
  }

  /** A move that leaves the task's slot as it is. */
  lemma SameSlot(tasks: seq<Phase>, i: nat, p: Phase, limit: nat)
    requires i < |tasks| && HasSlot(p) == HasSlot(tasks[i]) && (HasSlot(p) ==> p.slot == tasks[i].slot)
    ensures Count(tasks[i := p], Slotted, 0) == Count(tasks, Slotted, 0)
    ensures Count(tasks[i := p], Below, limit) == Count(tasks, Below, limit)
    ensures Count(tasks[i := p], LimitOrLater, limit) == Count(tasks, LimitOrLater, limit)
  {
    CountMove(tasks, i, p, Slotted, 0);
    CountMove(tasks, i, p, Below, limit);
    CountMove(tasks, i, p, LimitOrLater, limit);
  }

  lemma TaskStepKeepsSlots(s: State, step: Step)
    requires SlotsOk(s) && Enabled(s, step) && IsTaskStep(step)
    ensures SlotsOk(Next(s, step))
  {
    if step.Reserve? {
      ReserveKeepsSlots(s, step.i);
    } else {
      var w := Next(s, step);
      assert w.tasks == s.tasks[step.i := w.tasks[step.i]];
      SameSlot(s.tasks, step.i, w.tasks[step.i], if s.limit.Some? then s.limit.value else 0);
    }
  }

  lemma SendKeepsTraces(s: State, i: nat)
    requires TasksOk(s) && Enabled(s, Send(i))
    ensures TracesOk(Next(s, Send(i)))
  {
    var w := Next(s, Send(i));
    assert multiset(w.emitted) == multiset(s.emitted) + if s.consumer then multiset{i} else multiset{};
    forall j ensures TraceOk(w, j) {
      assert TraceOk(s, j);
    }
  }

  lemma RecordKeepsTraces(s: State, i: nat)
    requires TasksOk(s) && Enabled(s, Record(i))
    ensures TracesOk(Next(s, Record(i)))
  {
    var w := Next(s, Record(i));
    assert w.stats == s.stats + multiset{i} && w.emitted == s.emitted;
    forall j ensures TraceOk(w, j) {
      assert TraceOk(s, j);
    }
  }

  lemma TaskStepKeepsTraces(s: State, step: Step)
    requires TasksOk(s) && Enabled(s, step) && IsTaskStep(step)
    ensures TracesOk(Next(s, step))
  {
    if step.Send? {
      SendKeepsTraces(s, step.i);
    } else if step.Record? {
      RecordKeepsTraces(s, step.i);
    } else {
      var w := Next(s, step);
      assert w.emitted == s.emitted && w.stats == s.stats;
      assert IsRecorded(w.tasks[step.i]) == IsRecorded(s.tasks[step.i]);
      assert IsSent(w.tasks[step.i]) == IsSent(s.tasks[step.i]);
      forall j ensures TraceOk(w, j) {
        assert TraceOk(s, j);
      }
    }
  }

  lemma TaskStepKeepsPhases(s: State, step: Step)
    requires Inv(s) && Enabled(s, step) && IsTaskStep(step)
    ensures forall j :: TaskOk(Next(s, step), j)
  {
    var w, i := Next(s, step), step.i;
    assert TaskOk(s, i);
    forall j ensures TaskOk(w, j) {
      assert TaskOk(s, j);
    }
  }

  lemma TaskStepKeepsLoop(s: State, step: Step)
    requires Inv(s) && Enabled(s, step) && IsTaskStep(step)
    ensures LoopOk(Next(s, step))
  {
    var i := step.i;
    assert TaskOk(s, i);
    if s.limit.Some? && (step.CancelSurplus? || step.CancelAtLimit?) {
      SlotIsSpent(s, i);
    }
  }

  /** A slot in use has been counted. */
  lemma SlotIsSpent(s: State, i: nat)
    requires SlotsOk(s) && i < |s.tasks| && HasSlot(s.tasks[i]) && s.limit.Some?
    ensures s.tasks[i].slot + 1 >= s.limit.value ==> s.sent >= s.limit.value
  {
    var l := s.limit.value;
    if s.tasks[i].slot + 1 >= l {
      CountHas(s.tasks, i, LimitOrLater, l);
    }
  }

  lemma {:induction false} CountHas(tasks: seq<Phase>, i: nat, kind: Kind, limit: nat)
    requires i < |tasks| && Is(kind, tasks[i], limit)
    ensures Count(tasks, kind, limit) > 0
  {
    if i < |tasks| - 1 {
      CountHas(tasks[..|tasks| - 1], i, kind, limit);
    }
  }

  lemma SpawnKeepsCounts(s: State)
    requires PermitsOk(s) && SlotsOk(s) && EmittedOk(s) && Enabled(s, Spawn)
    ensures PermitsOk(Next(s, Spawn)) && SlotsOk(Next(s, Spawn)) && EmittedOk(Next(s, Spawn))
  {
    CountSpawn(s.tasks, InFlight, 0);
    CountSpawn(s.tasks, Slotted, 0);
    CountSpawn(s.tasks, Sent, 0);
    if s.limit.Some? {
      CountSpawn(s.tasks, Below, s.limit.value);
      CountSpawn(s.tasks, LimitOrLater, s.limit.value);
    }
  }

  lemma SpawnKeepsInv(s: State)
    requires Inv(s) && Enabled(s, Spawn)
    ensures Inv(Next(s, Spawn))
  {
    var w := Next(s, Spawn);
    SpawnKeepsCounts(s);
    forall j ensures TaskOk(w, j) && TraceOk(w, j) {
      assert TaskOk(s, j) && TraceOk(s, j);
    }
  }

  lemma LoopStepKeepsInv(s: State, step: Step)
    requires Inv(s) && Enabled(s, step)
    requires step.FetchItem? || step.TestStop? || step.Drained? || step.ConsumerLeaves?
    ensures Inv(Next(s, step))
  {
    var w := Next(s, step);
    forall j ensures TaskOk(w, j) {
      assert TaskOk(s, j);
    }
    forall j ensures TraceOk(w, j) {
      assert TraceOk(s, j);
    }
  }

  lemma StepKeepsInv(s: State, step: Step)
    requires Inv(s) && Enabled(s, step)
    ensures Inv(Next(s, step))
  {
    match step
    case FetchItem => LoopStepKeepsInv(s, step);
    case TestStop => LoopStepKeepsInv(s, step);
    case Drained => LoopStepKeepsInv(s, step);
    case ConsumerLeaves => LoopStepKeepsInv(s, step);
    case Spawn => SpawnKeepsInv(s);
    case _ =>
      TaskStepKeepsPermits(s, step);
      TaskStepKeepsEmitted(s, step);
      TaskStepKeepsSlots(s, step);
      TaskStepKeepsTraces(s, step);
      TaskStepKeepsPhases(s, step);
      TaskStepKeepsLoop(s, step);
  }

  // ----- Runs -----

  ghost predicate Initial(s: State) {
    && s.loop == Fetch && s.permits == s.maxConn && s.tasks == [] && s.sent == 0
    && !s.cancelled && s.consumer && s.stats == multiset{} && s.emitted == []
  }

  ghost predicate RunOf(s: State, steps: seq<Step>, w: State)
    decreases |steps|
  {
    if steps == [] then w == s
    else Enabled(s, steps[0]) && RunOf(Next(s, steps[0]), steps[1..], w)
  }

  lemma {:induction false} RunKeepsInv(s: State, steps: seq<Step>, w: State)
    requires Inv(s) && RunOf(s, steps, w)
    ensures Inv(w) && w.limit == s.limit && w.maxConn == s.maxConn && w.items == s.items
    decreases |steps|
  {
    if steps != [] {
      StepKeepsInv(s, steps[0]);
      RunKeepsInv(Next(s, steps[0]), steps[1..], w);
    }
  }

  /** Safety, at every moment of every interleaving. */
  lemma AlwaysSafe(s: State, steps: seq<Step>, w: State)
    requires Initial(s) && RunOf(s, steps, w)
    // In-flight checks and free permits add up to `max_conn`.
    ensures w.permits + Count(w.tasks, InFlight, 0) == s.maxConn
    // Never more than the limit is sent, and each item at most once.
    ensures s.limit.Some? ==> |w.emitted| <= s.limit.value
    ensures forall i :: multiset(w.emitted)[i] <= 1
    // Whatever is sent is in the stats already; nothing is in there twice.
    ensures forall i :: i in w.emitted ==> w.stats[i] == 1
    ensures forall i :: w.stats[i] <= 1
  {
    RunKeepsInv(s, steps, w);
    assert TasksOk(w);
    forall i: nat ensures multiset(w.emitted)[i] <= w.stats[i] <= 1 {
      assert TraceOk(w, i);
    }
    forall i | i in w.emitted ensures w.stats[i] == 1 {
      assert i in multiset(w.emitted);
      assert multiset(w.emitted)[i] >= 1;
    }
    if s.limit.Some? {
      forall i | 0 <= i < |w.tasks|
        ensures Is(Sent, w.tasks[i], s.limit.value) ==> Is(Below, w.tasks[i], s.limit.value)
      {
        assert TaskOk(w, i);
      }
      CountAll(w.tasks, Sent, Below, s.limit.value);
      SentIgnoresLimit(w.tasks, s.limit.value);
    }
  }

  lemma {:induction false} SentIgnoresLimit(tasks: seq<Phase>, limit: nat)
    ensures Count(tasks, Sent, limit) == Count(tasks, Sent, 0)
    ensures Count(tasks, Slotted, limit) == Count(tasks, Slotted, 0)
  {
    if tasks != [] {
      SentIgnoresLimit(tasks[..|tasks| - 1], limit);
    }
  }

  /** How many checks ended with a proxy that works and has the requested capabilities. */
  function Passed(s: State): nat {
    Count(s.tasks, Slotted, 0)
  }

  /**
   A finished run whose consumer stayed has emitted min(limit, passed) items -- all that passed when
   there is no limit. For a limit of one or more it was cancelled exactly when enough passed; and
   unless it stopped for that, every item of the source was checked and recorded.
   */
  lemma FinishedRunIsComplete(s: State, steps: seq<Step>, w: State)
    requires Initial(s) && RunOf(s, steps, w) && w.loop == Finished && w.consumer
    ensures |w.emitted| == if s.limit.Some? then Min(s.limit.value, Passed(w)) else Passed(w)
    ensures s.limit.Some? && s.limit.value > 0 ==> (w.cancelled <==> Passed(w) >= s.limit.value)
    ensures s.limit.None? ==> !w.cancelled
    ensures s.limit.None? || Passed(w) < s.limit.value ==>
      |w.tasks| == s.items && forall i :: 0 <= i < s.items ==> w.stats[i] == 1 && !w.tasks[i].Aborted?
  {
    RunKeepsInv(s, steps, w);
    FinishedCounts(w);
    if s.limit.Some? && s.limit.value > 0 && Passed(w) >= s.limit.value {
      CountFinds(w.tasks, LimitOrLater, s.limit.value);
      var i :| 0 <= i < |w.tasks| && Is(LimitOrLater, w.tasks[i], s.limit.value);
      assert TaskOk(w, i) && Ended(w.tasks[i]);
    }
    if s.limit.None? || Passed(w) < s.limit.value {
      forall i | 0 <= i < s.items ensures w.stats[i] == 1 && !w.tasks[i].Aborted? {
        assert TaskOk(w, i) && TraceOk(w, i) && Ended(w.tasks[i]);
      }
    }
  }

  /** When all tasks have ended, "sent" is "has a slot below the limit". */
  lemma FinishedCounts(w: State)
    requires Inv(w) && w.loop == Finished && w.consumer
    ensures |w.emitted| == if w.limit.Some? then Min(w.limit.value, w.sent) else w.sent
    ensures Passed(w) == w.sent
  {
    var l := if w.limit.Some? then w.limit.value else 0;
    SentIgnoresLimit(w.tasks, l);
    forall i | 0 <= i < |w.tasks|
      ensures Ended(w.tasks[i])
      ensures w.limit.Some? ==> (Is(Sent, w.tasks[i], l) <==> Is(Below, w.tasks[i], l))
      ensures w.limit.None? ==> (Is(Sent, w.tasks[i], l) <==> Is(Slotted, w.tasks[i], l))
    {
      assert TaskOk(w, i);
    }
    if w.limit.Some? {
      CountAll(w.tasks, Sent, Below, l);
      CountAll(w.tasks, Below, Sent, l);
    } else {
      CountAll(w.tasks, Sent, Slotted, l);
      CountAll(w.tasks, Slotted, Sent, l);
    }
  }

  // ----- Every run ends -----

  /** How many steps a task may still take. */
  function StepsLeft(p: Phase): nat {
    match p
    case Checking => 5
    case Checked(_) => 4
    case Recorded => 3
    case Over(_) => 1
    case Reserved(_) => 2
    case Delivered(_) => 1
    case _ => 0
  }

  function TaskWork(tasks: seq<Phase>): nat {
    if tasks == [] then 0 else TaskWork(tasks[..|tasks| - 1]) + StepsLeft(tasks[|tasks| - 1])
  }

  function LoopWork(loop: Loop): nat {
    match loop
    case Fetch => 4
    case Got => 3
    case NeedsPermit => 2
    case Draining => 1
    case Finished => 0
  }

  /** An upper bound on the steps that are left. */
  function Work(s: State): nat
    requires |s.tasks| <= s.items
  {
    8 * (s.items - |s.tasks|) + LoopWork(s.loop) + TaskWork(s.tasks)
  }

  lemma {:induction false} TaskWorkMoves(tasks: seq<Phase>, i: nat, p: Phase)
    requires i < |tasks|
    ensures TaskWork(tasks[i := p]) + StepsLeft(tasks[i]) == TaskWork(tasks) + StepsLeft(p)
  {
    var n := |tasks| - 1;
    if i == n {
      assert tasks[i := p][..n] == tasks[..n];
    } else {
      TaskWorkMoves(tasks[..n], i, p);
      assert tasks[i := p][..n] == tasks[..n][i := p];
    }
  }

  lemma TaskStepUsesWork(s: State, step: Step)
    requires LoopOk(s) && Enabled(s, step) && IsTaskStep(step)
    ensures |Next(s, step).tasks| == |s.tasks| && Work(Next(s, step)) < Work(s)
  {
    var w := Next(s, step);
    assert w.tasks == s.tasks[step.i := w.tasks[step.i]];
    assert StepsLeft(w.tasks[step.i]) < StepsLeft(s.tasks[step.i]);
    TaskWorkMoves(s.tasks, step.i, w.tasks[step.i]);
  }

  lemma SpawnUsesWork(s: State)
    requires LoopOk(s) && Enabled(s, Spawn)
    ensures |Next(s, Spawn).tasks| <= s.items && Work(Next(s, Spawn)) < Work(s)
  {
    assert (s.tasks + [Checking])[..|s.tasks|] == s.tasks;
  }

  lemma StepUsesWork(s: State, step: Step)
    requires LoopOk(s) && Enabled(s, step)
    ensures var w := Next(s, step);
      |w.tasks| <= w.items && if step.ConsumerLeaves? then Work(w) == Work(s) else Work(w) < Work(s)
  {
    if IsTaskStep(step) {
      TaskStepUsesWork(s, step);
    } else if step.Spawn? {
      SpawnUsesWork(s);
    } else {
      assert Next(s, step).tasks == s.tasks;
    }
  }

  /** The step a task that has not ended can take. */
  function TaskStep(p: Phase, i: nat): Step
    requires !Ended(p)
  {
    match p
    case Checking => CheckEnds(i, false)
    case Checked(_) => Record(i)
    case Recorded => Reserve(i)
    case Over(_) => CancelSurplus(i)
    case Reserved(_) => Send(i)
    case _ => CancelAtLimit(i)
  }

  /** Unless `max_conn` is 0, a run that has not finished is never stuck. */
  lemma NeverStuck(s: State) returns (step: Step)
    requires Inv(s) && s.loop != Finished && s.maxConn > 0
    ensures Enabled(s, step) && !step.ConsumerLeaves?
  {
    if s.loop == Fetch {
      step := FetchItem;
    } else if s.loop == Got {
      step := TestStop;
    } else if s.loop == NeedsPermit && s.permits > 0 {
      step := Spawn;
    } else if exists i: nat :: i < |s.tasks| && !Ended(s.tasks[i]) {
      var i: nat :| i < |s.tasks| && !Ended(s.tasks[i]);
      step := TaskStep(s.tasks[i], i);
    } else {
      if s.loop == NeedsPermit {
        CountFinds(s.tasks, InFlight, 0);
      }
      step := Drained;
    }
  }

  // ----- Which pipelines can finish -----

  /** A run that ends the pipeline while the consumer is still there. */
  ghost predicate Finishes(s: State, steps: seq<Step>, w: State) {
    RunOf(s, steps, w) && w.loop == Finished && w.consumer
  }

  ghost predicate CanFinish(s: State) {
    exists steps, w :: Finishes(s, steps, w)
  }

  lemma StepFirst(s: State, step: Step, steps: seq<Step>, w: State)
    requires Enabled(s, step) && Finishes(Next(s, step), steps, w)
    ensures Finishes(s, [step] + steps, w)
  {
    assert ([step] + steps)[1..] == steps;
  }

  /** With permits there is always a step that leads closer to the end. */
  lemma {:induction false} RunsToTheEnd(s: State) returns (steps: seq<Step>, w: State)
    requires Inv(s) && s.maxConn > 0 && s.consumer
    ensures Finishes(s, steps, w)
    decreases Work(s)
  {
    if s.loop == Finished {
      steps, w := [], s;
    } else {
      var step := NeverStuck(s);
      StepKeepsInv(s, step);
      StepUsesWork(s, step);
      var rest;
      rest, w := RunsToTheEnd(Next(s, step));
      StepFirst(s, step, rest, w);
      steps := [step] + rest;
    }
  }

  /** Nothing to check, or nothing wanted: the loop drains before it asks for a permit. */
  lemma EndsAtOnce(s: State) returns (steps: seq<Step>, w: State)
    requires Initial(s) && (s.items == 0 || s.limit == Some(0))
    ensures Finishes(s, steps, w)
  {
    var fetched := Next(s, FetchItem);
    if s.items == 0 {
      w := Next(fetched, Drained);
      assert Finishes(w, [], w);
      StepFirst(fetched, Drained, [], w);
      steps := [Drained] + [];
    } else {
      var stopped := Next(fetched, TestStop);
      w := Next(stopped, Drained);
      assert Finishes(w, [], w);
      StepFirst(stopped, Drained, [], w);
      StepFirst(fetched, TestStop, [Drained] + [], w);
      steps := [TestStop] + ([Drained] + []);
    }
    StepFirst(s, FetchItem, steps, w);
    steps := [FetchItem] + steps;
  }

  /** No permit, something to check, something wanted: nothing starts, and while the consumer stays nothing ends. */
  ghost predicate Starved(s: State) {
    && s.maxConn == 0 && s.permits == 0 && s.tasks == [] && s.sent == 0 && s.items > 0 && s.limit != Some(0)
    && (s.consumer ==> !s.cancelled && (s.loop == Fetch || s.loop == Got || s.loop == NeedsPermit))
  }

  lemma {:induction false} StaysStarved(s: State, steps: seq<Step>, w: State)
    requires Starved(s) && RunOf(s, steps, w)
    ensures Starved(w)
    decreases |steps|
  {
    if steps != [] {
      StaysStarved(Next(s, steps[0]), steps[1..], w);
    }
  }

  /**
   Which pipelines can finish without the consumer leaving: those with a permit, those with nothing to
   check, and those that want nothing.
   */
  lemma FinishesUnlessStarved(s: State)
    requires Initial(s)
    ensures CanFinish(s) <==> s.maxConn > 0 || s.items == 0 || s.limit == Some(0)
  {
    if s.items == 0 || s.limit == Some(0) {
      var steps, w := EndsAtOnce(s);
    } else if s.maxConn > 0 {
      InitialInv(s);
      var steps, w := RunsToTheEnd(s);
    } else {
      forall steps, w ensures !Finishes(s, steps, w) {
        if RunOf(s, steps, w) {
          StaysStarved(s, steps, w);
        }
      }
    }
  }

  lemma InitialInv(s: State)
    requires Initial(s)
    ensures Inv(s)
  {
  }

  function Moves(steps: seq<Step>): nat {
    if steps == [] then 0 else (if steps[0].ConsumerLeaves? then 0 else 1) + Moves(steps[1..])
  }

  /** No run is longer than 8 steps an item and 4 more, however the tasks interleave. */
  lemma {:induction false} RunsAreBounded(s: State, steps: seq<Step>, w: State)
    requires Inv(s) && RunOf(s, steps, w)
    ensures Moves(steps) <= Work(s)
    decreases |steps|
  {
    if steps != [] {
      StepKeepsInv(s, steps[0]);
      StepUsesWork(s, steps[0]);
      RunsAreBounded(Next(s, steps[0]), steps[1..], w);
    }
  }
}
