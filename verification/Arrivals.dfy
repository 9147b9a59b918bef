/** The processor while more work keeps arriving: items are served in the order in which they came, so
    whatever is submitted later, each accepted batch comes to its end. */
module Arrivals {
  import opened Options
  import opened BatchResults
  import opened PendingProcessor
  import opened PendingProcessorRuns

  // ---------- first in, first out ----------

  /** Queued tickets are in order, and later than those that workers hold. */
  ghost predicate Fifo(s: State) {
    && (forall i, j | 0 <= i < j < |s.queue| :: s.queue[i] < s.queue[j])
    && (forall w, q | 0 <= w < |s.workers| && !s.workers[w].Idle? && q in s.queue :: s.workers[w].t < q)
  }

  lemma StepKeepsFifo(c: Config, s: State, step: Step)
    requires Placed(s) && Fifo(s) && Enabled(s, step)
    ensures Fifo(Apply(c, s, step))
  {
    hide Placed;
    var s' := Apply(c, s, step);
    if KeepsTicket(step) { KeepsTicketWentOn(c, s, step); }
    else if Settles(step) { SettlesWasSettled(c, s, step); }
    else {
      TicketsKnown(s);
      match step
      case Submit(_, _, _, _, _) => NewTicketsLast(s, s');
      case EnqueueOrphan(_) => NewTicketsLast(s, s');
      case Dequeue(w) => HeadTaken(s, s', w);
      case _ =>
    }
  }

  lemma TicketsKnown(s: State)
    requires Placed(s)
    ensures forall q | q in s.queue :: q < |s.items|
    ensures forall w | 0 <= w < |s.workers| && !s.workers[w].Idle? :: s.workers[w].t < |s.items|
  {
    forall w | 0 <= w < |s.workers| && !s.workers[w].Idle? ensures s.workers[w].t < |s.items| {
      assert s.Holding(w, s.workers[w].t);
    }
  }

  lemma HeadTaken(s: State, s': State, w: nat)
    requires Fifo(s) && s.queue != [] && w < |s.workers|
    requires s'.queue == s.queue[1..] && s'.workers == s.workers[w := Loading(s.queue[0])]
    ensures Fifo(s')
  {
    forall i, j | 0 <= i < j < |s'.queue| ensures s'.queue[i] < s'.queue[j] {
      assert s'.queue[i] == s.queue[i + 1] && s'.queue[j] == s.queue[j + 1];
    }
    forall v, q | 0 <= v < |s'.workers| && !s'.workers[v].Idle? && q in s'.queue ensures s'.workers[v].t < q {
      var i :| 0 <= i < |s'.queue| && s'.queue[i] == q;
      assert q == s.queue[i + 1] && q in s.queue;
    }
  }

  lemma NewTicketsLast(s: State, s': State)
    requires Fifo(s) && s'.workers == s.workers
    requires |s.queue| <= |s'.queue| && s'.queue[..|s.queue|] == s.queue
    requires forall i | |s.queue| <= i < |s'.queue| :: s'.queue[i] == |s.items| + i - |s.queue|
    requires forall q | q in s.queue :: q < |s.items|
    requires forall w | 0 <= w < |s.workers| && !s.workers[w].Idle? :: s.workers[w].t < |s.items|
    ensures Fifo(s')
  {
    forall i, j | 0 <= i < j < |s'.queue| ensures s'.queue[i] < s'.queue[j] {
      if i < |s.queue| { assert s'.queue[i] == s.queue[i] && s.queue[i] in s.queue; }
      if j < |s.queue| { assert s'.queue[j] == s.queue[j]; }
    }
    forall w, q | 0 <= w < |s.workers| && !s.workers[w].Idle? && q in s'.queue ensures s.workers[w].t < q {
      var i :| 0 <= i < |s'.queue| && s'.queue[i] == q;
      if i < |s.queue| { assert s'.queue[..|s.queue|][i] == q && q in s.queue; }
    }
  }

  // ---------- the work on the tickets below a limit ----------

  function RankBelow(pc: Pc, limit: nat): nat { if pc.Idle? || pc.t >= limit then 0 else Rank(pc) }

  function RanksBelow(workers: seq<Pc>, limit: nat): nat {
    if workers == [] then 0 else RanksBelow(workers[..|workers| - 1], limit) + RankBelow(workers[|workers| - 1], limit)
  }

  lemma {:induction false} RanksUpdate(workers: seq<Pc>, w: nat, pc: Pc, limit: nat)
    requires w < |workers|
    ensures RanksBelow(workers[w := pc], limit)
      == RanksBelow(workers, limit) - RankBelow(workers[w], limit) + RankBelow(pc, limit)
  {
    var n := |workers| - 1;
    if w == n {
      assert workers[w := pc][..n] == workers[..n];
    } else {
      assert workers[w := pc][..n] == workers[..n][w := pc];
      RanksUpdate(workers[..n], w, pc, limit);
    }
  }

  function QueuedBelow(queue: seq<nat>, limit: nat): nat {
    if queue == [] then 0 else QueuedBelow(queue[1..], limit) + if queue[0] < limit then 1 else 0
  }

  lemma {:induction false} QueuedAppend(queue: seq<nat>, more: seq<nat>, limit: nat)
    requires forall i | 0 <= i < |more| :: more[i] >= limit
    ensures QueuedBelow(queue + more, limit) == QueuedBelow(queue, limit)
  {
    if queue == [] {
      assert queue + more == more;
      NoneBelow(more, limit);
    } else {
      assert (queue + more)[1..] == queue[1..] + more;
      QueuedAppend(queue[1..], more, limit);
    }
  }

  lemma {:induction false} NoneBelow(queue: seq<nat>, limit: nat)
    requires forall i | 0 <= i < |queue| :: queue[i] >= limit
    ensures QueuedBelow(queue, limit) == 0
  {
    if queue != [] { NoneBelow(queue[1..], limit); }
  }

  /** A bound on the steps that serve tickets below the limit. */
  function WorkBelow(s: State, limit: nat): nat { 10 * QueuedBelow(s.queue, limit) + RanksBelow(s.workers, limit) }

  /** The step serves a ticket below the limit. */
  predicate Serves(s: State, step: Step, limit: nat) {
    IsWorkerStep(step) && step.w < |s.workers| &&
    if step.Dequeue? then s.queue != [] && s.queue[0] < limit
    else !s.workers[step.w].Idle? && s.workers[step.w].t < limit
  }

  /** Steps on tickets below the limit lower the work; all others, and everything that arrives, leave it. */
  lemma ServingLowersWork(c: Config, s: State, step: Step, limit: nat)
    requires Enabled(s, step) && !step.Cancel? && limit <= |s.items|
    ensures Serves(s, step, limit) ==> WorkBelow(Apply(c, s, step), limit) < WorkBelow(s, limit)
    ensures !Serves(s, step, limit) ==> WorkBelow(Apply(c, s, step), limit) == WorkBelow(s, limit)
  {
    hide Apply, Enabled, Rank, QueuedBelow, RanksBelow;
    if IsWorkerStep(step) { WorkerStepWork(c, s, step, limit); } else { ArrivalKeepsWork(c, s, step, limit); }
  }

  lemma ArrivalKeepsWork(c: Config, s: State, step: Step, limit: nat)
    requires Enabled(s, step) && !step.Cancel? && !IsWorkerStep(step) && limit <= |s.items|
    ensures WorkBelow(Apply(c, s, step), limit) == WorkBelow(s, limit)
  {
    hide RanksBelow;
    var s' := Apply(c, s, step);
    if step.Submit? || step.EnqueueOrphan? {
      assert s'.queue == s.queue + s'.queue[|s.queue|..];
      QueuedAppend(s.queue, s'.queue[|s.queue|..], limit);
    }
  }

  lemma WorkerStepWork(c: Config, s: State, step: Step, limit: nat)
    requires Enabled(s, step) && IsWorkerStep(step)
    ensures Serves(s, step, limit) ==> WorkBelow(Apply(c, s, step), limit) < WorkBelow(s, limit)
    ensures !Serves(s, step, limit) ==> WorkBelow(Apply(c, s, step), limit) == WorkBelow(s, limit)
  {
    hide Rank, RanksBelow, Fire, State.Marked;
    var s', w := Apply(c, s, step), step.w;
    if KeepsTicket(step) { GoingOnWork(c, s, step, limit); }
    else if Settles(step) { SettlingWork(c, s, step, limit); }
    else { RanksUpdate(s.workers, w, s'.workers[w], limit); TakenWork(s, limit); }
  }

  lemma TakenWork(s: State, limit: nat)
    requires s.queue != []
    ensures QueuedBelow(s.queue, limit) == QueuedBelow(s.queue[1..], limit) + if s.queue[0] < limit then 1 else 0
    ensures Rank(Idle) == 0 && Rank(Loading(s.queue[0])) < 10
  {
  }

  lemma GoingOnWork(c: Config, s: State, step: Step, limit: nat)
    requires Enabled(s, step) && KeepsTicket(step)
    ensures Serves(s, step, limit) ==> WorkBelow(Apply(c, s, step), limit) < WorkBelow(s, limit)
    ensures !Serves(s, step, limit) ==> WorkBelow(Apply(c, s, step), limit) == WorkBelow(s, limit)
  {
    KeepsTicketWentOn(c, s, step);
    GoingOnLowersRank(c, s, step);
    hide Apply, Enabled, Rank, RanksBelow, QueuedBelow;
    var s', w := Apply(c, s, step), step.w;
    assert s'.workers == s.workers[w := s'.workers[w]];
    RanksUpdate(s.workers, w, s'.workers[w], limit);
  }

  lemma SettlingWork(c: Config, s: State, step: Step, limit: nat)
    requires Enabled(s, step) && Settles(step)
    ensures Serves(s, step, limit) ==> WorkBelow(Apply(c, s, step), limit) < WorkBelow(s, limit)
    ensures !Serves(s, step, limit) ==> WorkBelow(Apply(c, s, step), limit) == WorkBelow(s, limit)
  {
    SettlesWasSettled(c, s, step);
    hide Apply, Enabled, RanksBelow, QueuedBelow;
    var s', w := Apply(c, s, step), step.w;
    assert s'.workers == s.workers[w := s'.workers[w]];
    RanksUpdate(s.workers, w, s'.workers[w], limit);
  }

  // ---------- paths with arrivals ----------

  /** Any steps but cancellations: workers going on in any order, submissions, orphans. */
  ghost predicate IsUninterrupted(c: Config, path: seq<State>, steps: seq<Step>) {
    IsPath(c, path, steps) && forall k | 0 <= k < |steps| :: !steps[k].Cancel?
  }

  /** How many of the first k steps serve tickets below the limit. */
  function Served(path: seq<State>, steps: seq<Step>, k: nat, limit: nat): nat
    requires k <= |steps| <= |path|
  {
    if k == 0 then 0 else Served(path, steps, k - 1, limit) + if Serves(path[k - 1], steps[k - 1], limit) then 1 else 0
  }

  lemma {:induction false} ServedBounded(c: Config, path: seq<State>, steps: seq<Step>, k: nat, limit: nat)
    requires IsUninterrupted(c, path, steps) && k <= |steps| && limit <= |path[0].items|
    ensures limit <= |path[k].items|
    ensures Served(path, steps, k, limit) + WorkBelow(path[k], limit) <= WorkBelow(path[0], limit)
  {
    hide Apply, Enabled, WorkBelow, Serves;
    if k > 0 {
      ServedBounded(c, path, steps, k - 1, limit);
      assert StepsTo(c, path[k - 1], steps[k - 1], path[k - 1 + 1]);
      ServingLowersWork(c, path[k - 1], steps[k - 1], limit);
      ItemsGrow(c, path[k - 1], steps[k - 1]);
    }
  }

  /** What arrivals and worker steps leave of batch b. */
  ghost predicate KeepsBatch(s: State, s': State, b: nat) {
    && b < |s.batches| <= |s'.batches| && s'.batches[b].abandoned == s.batches[b].abandoned
    && s'.TicketsOf(b) == s.TicketsOf(b) && s'.lost == s.lost && |s'.workers| == |s.workers|
    && (s.running ==> s'.running)
  }

  lemma StepKeepsBatch(c: Config, s: State, step: Step, b: nat)
    requires Enabled(s, step) && !step.Cancel? && b < |s.batches|
    ensures KeepsBatch(s, Apply(c, s, step), b)
  {
    if KeepsTicket(step) { KeepsTicketWentOn(c, s, step); }
    else if Settles(step) { SettlesWasSettled(c, s, step); }
  }

  lemma {:induction false} PathKeeps(c: Config, path: seq<State>, steps: seq<Step>, k: nat, b: nat)
    requires IsUninterrupted(c, path, steps) && k <= |steps|
    requires Inv(path[0]) && Fifo(path[0]) && b < |path[0].batches|
    ensures Inv(path[k]) && Fifo(path[k]) && KeepsBatch(path[0], path[k], b)
  {
    hide Apply, Enabled, Placed, BatchInv, Fifo;
    if k > 0 {
      PathKeeps(c, path, steps, k - 1, b);
      assert StepsTo(c, path[k - 1], steps[k - 1], path[k - 1 + 1]);
      StepKeepsInv(c, path[k - 1], steps[k - 1]);
      StepKeepsFifo(c, path[k - 1], steps[k - 1]);
      StepKeepsBatch(c, path[k - 1], steps[k - 1], b);
    }
  }

  // ---------- progress ----------

  /** No enabled step serves a ticket below the limit. */
  ghost predicate NoneServed(s: State, limit: nat) {
    forall step | Serves(s, step, limit) :: !Enabled(s, step)
  }

  /** A holder of an early ticket can go on unless it waits for a slot. */
  lemma HolderIsServed(s: State, w: nat, limit: nat)
    requires s.running && w < |s.workers| && !s.workers[w].Idle? && !s.workers[w].AwaitingSlot?
      && s.workers[w].t < limit
    ensures !NoneServed(s, limit)
  {
    var step := match s.workers[w]
      case Loading(_) => Load(w, Row)
      case Preparing(_) => ResolveEngine(w, true, true)
      case ClearingChunks(_) => ChunksCleared(w)
      case ClearingState(_) => StateCleared(w)
      case Resolving(_) => ResolveParameters(w, true)
      case Processing(_) => Processed(w, false, false)
      case _ => StatusUpdated(w);
    assert Serves(s, step, limit) && Enabled(s, step);
  }

  /** While no early ticket is served, a waiting one waits for a slot that a late ticket has. */
  lemma WaitingForLater(s: State, w: nat, limit: nat) returns (v: nat)
    requires Inv(s) && s.running && NoneServed(s, limit)
    requires w < |s.workers| && !s.workers[w].Idle? && s.workers[w].t < limit
    ensures s.workers[w].t < |s.items| && s.items[s.workers[w].t].batch.Some?
    ensures v < |s.workers| && !s.workers[v].Idle? && s.workers[v].t < |s.items| && s.workers[v].t >= limit
    ensures s.items[s.workers[v].t].batch == s.items[s.workers[w].t].batch
  {
    if !s.workers[w].AwaitingSlot? { HolderIsServed(s, w, limit); }
    assert s.Holding(w, s.workers[w].t);
    var b := s.items[s.workers[w].t].batch.value;
    assert BatchInv(s, b);
    assert Serves(s, TakeSlot(w), limit);
    assert s.Holders(b) != {};
    v :| v in s.Holders(b);
    if s.workers[v].t < limit { HolderIsServed(s, v, limit); }
  }

  /** When no step serves tickets below the limit, a batch with all its tickets below it has nothing queued
      or held. */
  lemma NothingLeft(s: State, b: nat, limit: nat)
    requires Inv(s) && Fifo(s) && s.running && |s.workers| > 0 && NoneServed(s, limit)
    requires forall t | 0 <= t < |s.items| && s.items[t].batch == Some(b) :: t < limit
    ensures QueuedOf(s, b) == {} && HeldOf(s, b) == {}
  {
    forall t | t in s.TicketsOf(b) ensures !s.Held(t) {
      if w :| s.Holding(w, t) {
        var v := WaitingForLater(s, w, limit);
      }
    }
    forall t | t in s.TicketsOf(b) ensures t !in s.queue {
      if t in s.queue { HeadIsServed(s, t, limit); }
    }
  }

  lemma HeadIsServed(s: State, t: nat, limit: nat)
    requires Inv(s) && Fifo(s) && s.running && |s.workers| > 0 && t in s.queue && t < limit
    ensures !NoneServed(s, limit)
  {
    var i :| 0 <= i < |s.queue| && s.queue[i] == t;
    assert s.queue[0] <= t && s.queue[0] in s.queue;
    if s.workers[0].Idle? {
      assert Serves(s, Dequeue(0), limit) && Enabled(s, Dequeue(0));
    } else if NoneServed(s, limit) {
      var v := WaitingForLater(s, 0, limit);
    }
  }

  /** However the workers are scheduled, whatever their calls do, and whatever arrives meanwhile, a running
      processor finishes every accepted batch of which no item was dropped by a cancellation: only so many
      steps serve the tickets there are now, and once none is left to take the batch is done. */
  lemma EveryBatchFinishes(c: Config, path: seq<State>, steps: seq<Step>, b: nat)
    requires IsUninterrupted(c, path, steps) && Inv(path[0]) && Fifo(path[0])
    requires path[0].running && |path[0].workers| > 0
    requires b < |path[0].batches| && !path[0].batches[b].abandoned && LostOf(path[0], b) == {}
    ensures Served(path, steps, |steps|, |path[0].items|) <= WorkBelow(path[0], |path[0].items|)
    ensures NoneServed(path[|steps|], |path[0].items|) ==>
      b < |path[|steps|].batches| && path[|steps|].batches[b].progress.done
  {
    hide Placed, BatchInv, Fifo, WorkBelow, NoneServed;
    var s, end := path[0], path[|steps|];
    ServedBounded(c, path, steps, |steps|, |s.items|);
    PathKeeps(c, path, steps, |steps|, b);
    if NoneServed(end, |s.items|) {
      assert forall t | 0 <= t < |end.items| && end.items[t].batch == Some(b) :: t in end.TicketsOf(b);
      NothingLeft(end, b, |s.items|);
      assert LostOf(end, b) == LostOf(s, b);
      DoneMeansDelivered(end, b);
    }
  }

  /** Every run of the processor serves its items in order. */
  lemma {:induction false} RunIsFifo(c: Config, run: seq<State>, steps: seq<Step>, i: nat)
    requires IsRun(c, run, steps) && i < |run|
    ensures Fifo(run[i])
  {
    hide Apply, Enabled;
    if i == 0 {
      var workers: nat :| run[0] == Initial(workers);
    } else {
      RunIsFifo(c, run, steps, i - 1);
      RunKeepsInv(c, run, steps, i - 1);
      assert StepsTo(c, run[i - 1], steps[i - 1], run[i - 1 + 1]);
      StepKeepsFifo(c, run[i - 1], steps[i - 1]);
    }
  }
}
