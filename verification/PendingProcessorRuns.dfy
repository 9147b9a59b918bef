/** What the pending processor does over whole runs: results are delivered exactly once and in
    order, nothing is lost without a cancellation, a marked document is cleared before it is
    processed, and the workers never deadlock. */
module PendingProcessorRuns {
  import opened Options
  import opened Sizes
  import opened BatchResults
  import opened PendingProcessor

  ghost predicate StepsTo(c: Config, s: State, step: Step, s': State) { Enabled(s, step) && s' == Apply(c, s, step) }

  /** A path: each state follows from the one before by the step given. */
  ghost predicate IsPath(c: Config, path: seq<State>, steps: seq<Step>) {
    |path| == |steps| + 1 && forall k | 0 <= k < |steps| :: StepsTo(c, path[k], steps[k], path[k + 1])
  }

  /** A run is a path from the start of the processor. */
  ghost predicate IsRun(c: Config, run: seq<State>, steps: seq<Step>) {
    IsPath(c, run, steps) && exists workers: nat :: run[0] == Initial(workers)
  }

  lemma {:induction false} RunKeepsInv(c: Config, run: seq<State>, steps: seq<Step>, i: nat)
    requires IsRun(c, run, steps) && i < |run|
    ensures Inv(run[i])
  {
    hide Apply, Enabled;
    if i == 0 {
      var workers: nat :| run[0] == Initial(workers);
      InitialInv(workers);
    } else {
      RunKeepsInv(c, run, steps, i - 1);
      assert StepsTo(c, run[i - 1], steps[i - 1], run[i - 1 + 1]);
      StepKeepsInv(c, run[i - 1], steps[i - 1]);
    }
  }

  lemma InitialInv(workers: nat)
    ensures Inv(Initial(workers))
  {
  }

  // ---------- conservation ----------

  ghost function QueuedOf(s: State, b: nat): set<nat> { set t | t in s.TicketsOf(b) && t in s.queue }

  ghost function HeldOf(s: State, b: nat): set<nat> { set t | t in s.TicketsOf(b) && s.Held(t) }

  ghost function LostOf(s: State, b: nat): set<nat> { set t | t in s.TicketsOf(b) && t in s.lost }

  lemma FourWaySplit(all: set<nat>, p: set<nat>, q: set<nat>, r: set<nat>, u: set<nat>)
    requires forall t :: t in all <==> t in p || t in q || t in r || t in u
    requires p !! q && (p + q) !! r && (p + q + r) !! u
    ensures |all| == |p| + |q| + |r| + |u|
  {
    assert all == p + q + r + u;
  }

  /** A batch's total is what has completed, what is queued, what workers hold, and what
      cancellations dropped. */
  lemma Conservation(s: State, b: nat)
    requires Inv(s) && b < |s.batches| && !s.batches[b].abandoned
    ensures s.batches[b].progress.total
         == s.batches[b].progress.completed + |QueuedOf(s, b)| + |HeldOf(s, b)| + |LostOf(s, b)|
  {
    hide Placed;
    assert BatchInv(s, b);
    TicketsSplit(s, b);
  }

  lemma TicketsSplit(s: State, b: nat)
    requires Placed(s) && b < |s.batches|
    ensures |s.TicketsOf(b)| == |s.settled * s.TicketsOf(b)| + |QueuedOf(s, b)| + |HeldOf(s, b)| + |LostOf(s, b)|
  {
    var mine := s.TicketsOf(b);
    forall t | t in mine ensures t in s.settled || t in s.queue || s.Held(t) || t in s.lost {
      assert s.Somewhere(t);
    }
    forall t | s.Held(t) ensures t !in s.settled && t !in s.lost && t !in s.queue {
      var w :| s.Holding(w, t);
    }
    FourWaySplit(mine, s.settled * mine, QueuedOf(s, b), HeldOf(s, b), LostOf(s, b));
  }

  /** The handle is done exactly when no result is missing. */
  lemma DoneMeansDelivered(s: State, b: nat)
    requires Inv(s) && b < |s.batches|
    ensures s.batches[b].progress.done <==>
      !s.batches[b].abandoned && QueuedOf(s, b) == {} && HeldOf(s, b) == {} && LostOf(s, b) == {}
  {
    assert BatchInv(s, b);
    if !s.batches[b].abandoned { Conservation(s, b); }
  }

  /** The callback invocations, after those made at submission, that named document d. */
  ghost function CallsFor(s: State, b: nat, d: nat): set<nat>
    requires b < |s.batches|
  {
    set i: nat | s.batches[b].early <= i < |s.batches[b].progress.calls|
      && s.batches[b].progress.calls[i].result.docId == d
  }

  /** The settled tickets of a batch for document d. */
  ghost function SettledFor(s: State, b: nat, d: nat): set<nat> {
    set t | t in s.TicketsOf(b) && t in s.settled && s.items[t].docId == d
  }

  /** The callback has been called for a document once for each of its tickets that is settled. */
  lemma CallsPerDocument(s: State, b: nat, d: nat)
    requires Inv(s) && b < |s.batches|
    ensures |CallsFor(s, b, d)| == |SettledFor(s, b, d)|
  {
    assert BatchInv(s, b);
    var batch, mine := s.batches[b], s.TicketsOf(b);
    var names := (t: nat) => t < |s.items| && s.items[t].docId == d;
    PlacesAndMembers(batch.delivered, batch.early, names);
    CallsAtPlaces(batch, mine, s.settled, s.items, d, names);
    assert SettledFor(s, b, d) == MembersWith(batch.delivered, names);
  }

  lemma CallsAtPlaces(batch: Batch, mine: set<nat>, settled: set<nat>, items: seq<Item>, d: nat, names: nat -> bool)
    requires ResultsInv(batch, mine, settled, items)
    requires forall t: nat :: names(t) <==> t < |items| && items[t].docId == d
    ensures (set i: nat | batch.early <= i < |batch.progress.calls| && batch.progress.calls[i].result.docId == d)
         == Places(batch.delivered, batch.early, names)
  {
    var calls := batch.progress.calls;
    forall i: nat
      ensures batch.early <= i < |calls| && calls[i].result.docId == d
          <==> AtPlace(batch.delivered, batch.early, names, i)
    {
      if batch.early <= i < |calls| { CallAt(batch, items, i - batch.early); }
    }
  }

  lemma CallAt(batch: Batch, items: seq<Item>, k: nat)
    requires ResultsNameDocuments(batch.progress.calls, batch.early, batch.delivered, items) && k < |batch.delivered|
    ensures batch.delivered[k] < |items|
    ensures batch.early + k < |batch.progress.calls|
    ensures batch.progress.calls[batch.early + k].result.docId == items[batch.delivered[k]].docId
  {
  }

  /** A queued document of a batch has had the callback called for it once when it is settled, and not at
      all before, unless the batch queues the same document twice. */
  lemma ExactlyOnce(s: State, b: nat, t: nat)
    requires Inv(s) && b < |s.batches| && t in s.TicketsOf(b)
    requires forall u | u in s.TicketsOf(b) && s.items[u].docId == s.items[t].docId :: u == t
    ensures |CallsFor(s, b, s.items[t].docId)| == if t in s.settled then 1 else 0
  {
    CallsPerDocument(s, b, s.items[t].docId);
    assert SettledFor(s, b, s.items[t].docId) == if t in s.settled then {t} else {};
  }

  /** The callback of a batch has been called with 1, 2, … up to completed, always with the same
      total, and never after the handle was done. */
  lemma CallbackOrder(c: Config, run: seq<State>, steps: seq<Step>, k: nat, b: nat, i: nat)
    requires IsRun(c, run, steps) && k < |run|
    requires b < |run[k].batches| && i < |run[k].batches[b].progress.calls|
    ensures run[k].batches[b].progress.calls[i].completed == i + 1 <= run[k].batches[b].progress.total
    ensures run[k].batches[b].progress.calls[i].total == run[k].batches[b].progress.total
    ensures !run[k].batches[b].progress.calls[i].doneBefore
  {
    RunKeepsInv(c, run, steps, k);
    assert BatchInv(run[k], b);
  }

  /** At most limit documents of a batch are between entering and leaving its semaphore. */
  lemma InFlightBounded(s: State, b: nat)
    requires Inv(s) && b < |s.batches|
    ensures |s.Holders(b)| <= s.batches[b].limit
  {
    assert BatchInv(s, b);
  }

  // ---------- the work comes to an end ----------

  /** A bound on the steps until the worker is idle again. */
  function Rank(pc: Pc): nat {
    match pc
    case Idle => 0
    case FallingBack(_) => 1
    case MarkingFailed(_) => 2
    case Processing(_) => 3
    case Resolving(_) => 4
    case ClearingState(_) => 5
    case ClearingChunks(_) => 6
    case Preparing(_) => 7
    case AwaitingSlot(_) => 8
    case Loading(_) => 9
  }

  lemma GoingOnLowersRank(c: Config, s: State, step: Step)
    requires Enabled(s, step) && KeepsTicket(step)
    ensures Rank(Apply(c, s, step).workers[step.w]) < Rank(s.workers[step.w])
  {
  }

  lemma ItemsGrow(c: Config, s: State, step: Step)
    requires Enabled(s, step)
    ensures |s.items| <= |Apply(c, s, step).items|
  {
  }

  ghost predicate Stuck(s: State) {
    forall step | IsWorkerStep(step) :: !Enabled(s, step)
  }

  /** A worker that holds a ticket and does not wait for a slot can go on. */
  lemma HoldersCanGoOn(s: State, w: nat)
    requires s.running && w < |s.workers| && !s.workers[w].Idle? && !s.workers[w].AwaitingSlot?
    ensures !Stuck(s)
  {
    var step := match s.workers[w]
      case Loading(_) => Load(w, Row)
      case Preparing(_) => ResolveEngine(w, true, true)
      case ClearingChunks(_) => ChunksCleared(w)
      case ClearingState(_) => StateCleared(w)
      case Resolving(_) => ResolveParameters(w, true)
      case Processing(_) => Processed(w, false, false)
      case _ => StatusUpdated(w);
    assert Enabled(s, step) && IsWorkerStep(step);
  }

  /** There is no deadlock: while something is queued or held, some worker can go on. */
  lemma StuckMeansIdle(s: State)
    requires Inv(s) && s.running && |s.workers| > 0 && Stuck(s)
    ensures s.queue == [] && forall w | 0 <= w < |s.workers| :: s.workers[w].Idle?
  {
    forall w | 0 <= w < |s.workers| ensures s.workers[w].Idle? {
      if !s.workers[w].Idle? {
        if !s.workers[w].AwaitingSlot? { HoldersCanGoOn(s, w); }
        assert s.Holding(w, s.workers[w].t);
        var b := s.items[s.workers[w].t].batch.value;
        assert BatchInv(s, b);
        assert !Enabled(s, TakeSlot(w));
        assert s.Holders(b) != {};
        var v :| v in s.Holders(b);
        HoldersCanGoOn(s, v);
      }
    }
    assert !Enabled(s, Dequeue(0));
  }

  // ---------- marked documents are cleared before they are processed ----------

  ghost predicate ClearedBefore(c: Config, trace: seq<Event>, k: nat, t: nat)
    requires k <= |trace|
  {
    && (c.hasVectorStore ==> Event(t, ClearChunks) in trace[..k])
    && (c.hasClear ==> Event(t, ClearState) in trace[..k])
  }

  /** A marked ticket that is about to be processed has been cleared; one that is being cleared of
      its state has no chunks any more. */
  ghost predicate ClearingUnderWay(c: Config, s: State, w: nat)
    requires w < |s.workers|
  {
    var pc := s.workers[w];
    && (pc.Resolving? && s.Marked(pc.t) ==> ClearedBefore(c, s.trace, |s.trace|, pc.t))
    && (pc.ClearingState? && c.hasVectorStore ==> Event(pc.t, ClearChunks) in s.trace)
  }

  /** Worker w has processed its ticket, or is at it. */
  predicate AtProcessing(s: State, w: nat, t: nat) {
    s.Holding(w, t) && (s.workers[w].Processing? || s.workers[w].MarkingFailed? || s.workers[w].FallingBack?)
  }

  /** Whether ticket t may already have been processed. */
  ghost predicate PastProcessing(s: State, t: nat) {
    t in s.settled || t in s.lost || exists w :: AtProcessing(s, w, t)
  }

  ghost predicate EventInv(c: Config, s: State, k: nat)
    requires k < |s.trace|
  {
    s.trace[k].call == Process ==>
      && PastProcessing(s, s.trace[k].t)
      && (s.Marked(s.trace[k].t) ==> ClearedBefore(c, s.trace, k, s.trace[k].t))
      && forall j | 0 <= j < k && s.trace[j].call == Process :: s.trace[j].t != s.trace[k].t
  }

  ghost predicate TraceInv(c: Config, s: State) {
    && (forall w | 0 <= w < |s.workers| :: ClearingUnderWay(c, s, w))
    && (forall k | 0 <= k < |s.trace| :: EventInv(c, s, k))
  }

  lemma PastStays(c: Config, s: State, step: Step, t: nat)
    requires Placed(s) && Enabled(s, step) && PastProcessing(s, t)
    ensures PastProcessing(Apply(c, s, step), t)
  {
    hide Fire, FireAll, EarlyResults, State.Marked;
    var s' := Apply(c, s, step);
    if t !in s.settled && t !in s.lost {
      var w :| AtProcessing(s, w, t);
      if KeepsTicket(step) {
        KeepsTicketWentOn(c, s, step);
        assert AtProcessing(s', w, t);
      } else if Settles(step) {
        SettlesWasSettled(c, s, step);
        if step.w != w { assert AtProcessing(s', w, t); }
      } else if step.Cancel? {
        assert t in s'.lost;
      } else {
        assert AtProcessing(s', w, t);
      }
    }
  }

  lemma PastIsTicket(s: State, t: nat)
    requires Placed(s) && PastProcessing(s, t)
    ensures t < |s.items|
  {
    if t !in s.settled && t !in s.lost {
      var w :| AtProcessing(s, w, t);
      assert s.Holding(w, t);
    }
  }

  lemma MarkedStays(c: Config, s: State, step: Step, t: nat)
    requires Placed(s) && Enabled(s, step) && t < |s.items|
    ensures Apply(c, s, step).Marked(t) <==> s.Marked(t)
  {
    hide Fire, FireAll, EarlyResults;
    if KeepsTicket(step) { KeepsTicketWentOn(c, s, step); }
    else if Settles(step) { SettlesWasSettled(c, s, step); }
  }

  /** The trace only grows, by at most the call that the step completes or starts. */
  lemma TraceGrows(c: Config, s: State, step: Step)
    requires Enabled(s, step)
    ensures |s.trace| <= |Apply(c, s, step).trace| && Apply(c, s, step).trace[..|s.trace|] == s.trace
  {
  }

  lemma ClearedGrows(c: Config, trace: seq<Event>, trace': seq<Event>, k: nat, t: nat)
    requires |trace| <= |trace'| && trace'[..|trace|] == trace && k <= |trace|
    ensures ClearedBefore(c, trace', k, t) <==> ClearedBefore(c, trace, k, t)
    ensures ClearedBefore(c, trace, |trace|, t) ==> ClearedBefore(c, trace', |trace'|, t)
  {
    assert trace'[..k] == trace[..k];
    forall e | e in trace[..|trace|] ensures e in trace'[..|trace'|] {
      var i :| 0 <= i < |trace| && trace[i] == e;
      assert trace'[..|trace|][i] == trace'[i];
    }
  }

  lemma OldEventStays(c: Config, s: State, step: Step, k: nat)
    requires k < |s.trace| && Placed(s) && EventInv(c, s, k) && Enabled(s, step)
    ensures k < |Apply(c, s, step).trace| && EventInv(c, Apply(c, s, step), k)
  {
    var s' := Apply(c, s, step);
    TraceGrows(c, s, step);
    assert EventInv(c, s, k);
    forall j | 0 <= j <= k ensures s'.trace[j] == s.trace[j] { assert s'.trace[..|s.trace|][j] == s'.trace[j]; }
    if s.trace[k].call == Process {
      var t := s.trace[k].t;
      PastIsTicket(s, t);
      PastStays(c, s, step, t);
      MarkedStays(c, s, step, t);
      ClearedGrows(c, s.trace, s'.trace, k, t);
    }
  }

  /** The only step that starts processing finds the ticket never processed, and cleared if marked. */
  lemma NewEventHolds(c: Config, s: State, w: nat)
    requires Placed(s) && TraceInv(c, s) && Enabled(s, ResolveParameters(w, false))
    ensures EventInv(c, Apply(c, s, ResolveParameters(w, false)), |s.trace|)
  {
    var t := s.workers[w].t;
    var s' := Apply(c, s, ResolveParameters(w, false));
    assert s.Holding(w, t);
    assert AtProcessing(s', w, t);
    assert ClearingUnderWay(c, s, w);
    MarkedStays(c, s, ResolveParameters(w, false), t);
    ClearedGrows(c, s.trace, s'.trace, |s.trace|, t);
    forall j | 0 <= j < |s.trace| && s.trace[j].call == Process ensures s.trace[j].t != t {
      assert EventInv(c, s, j);
    }
  }

  lemma OtherWorkersSame(c: Config, s: State, step: Step, v: nat)
    requires v < |s.workers| && Enabled(s, step) && IsWorkerStep(step) && v != step.w
    ensures v < |Apply(c, s, step).workers| && Apply(c, s, step).workers[v] == s.workers[v]
  {
    hide Fire, State.Marked;
  }

  lemma HoldsTicket(s: State, w: nat)
    requires Placed(s) && w < |s.workers|
    ensures s.workers[w].Idle? || s.workers[w].t < |s.items|
  {
    if !s.workers[w].Idle? { assert s.Holding(w, s.workers[w].t); }
  }

  lemma OtherWorkerStays(c: Config, s: State, step: Step, v: nat)
    requires v < |s.workers| && Placed(s) && ClearingUnderWay(c, s, v) && Enabled(s, step) && IsWorkerStep(step)
      && v != step.w
    ensures v < |Apply(c, s, step).workers| && ClearingUnderWay(c, Apply(c, s, step), v)
  {
    OtherWorkersSame(c, s, step, v);
    HoldsTicket(s, v);
    hide Placed, Apply, Enabled, State.Marked;
    var s' := Apply(c, s, step);
    TraceGrows(c, s, step);
    if !s.workers[v].Idle? {
      var t := s.workers[v].t;
      MarkedStays(c, s, step, t);
      ClearedGrows(c, s.trace, s'.trace, |s.trace|, t);
      if Event(t, ClearChunks) in s.trace { assert Event(t, ClearChunks) in s'.trace[..|s.trace|]; }
    }
  }

  /** The worker that goes on with its ticket gets to Resolving or ClearingState only with what is
      needed there. */
  lemma SameTicketStays(c: Config, s: State, step: Step)
    requires Placed(s) && Enabled(s, step) && KeepsTicket(step) && ClearingUnderWay(c, s, step.w)
    ensures step.w < |Apply(c, s, step).workers| && ClearingUnderWay(c, Apply(c, s, step), step.w)
  {
    hide Placed;
    var s', t := Apply(c, s, step), s.workers[step.w].t;
    MarkedHeld(c, s, step);
    TraceGrows(c, s, step);
    assert s'.trace[..|s'.trace|] == s'.trace;
    if Event(t, ClearChunks) in s.trace { assert Event(t, ClearChunks) in s'.trace[..|s.trace|]; }
  }

  lemma MarkedHeld(c: Config, s: State, step: Step)
    requires Placed(s) && Enabled(s, step) && KeepsTicket(step)
    ensures Apply(c, s, step).Marked(s.workers[step.w].t) <==> s.Marked(s.workers[step.w].t)
  {
    hide Apply;
    assert s.Holding(step.w, s.workers[step.w].t);
    MarkedStays(c, s, step, s.workers[step.w].t);
  }

  lemma SameWorkerStays(c: Config, s: State, step: Step)
    requires Placed(s) && Enabled(s, step) && IsWorkerStep(step) && ClearingUnderWay(c, s, step.w)
    ensures step.w < |Apply(c, s, step).workers| && ClearingUnderWay(c, Apply(c, s, step), step.w)
  {
    hide Placed;
    if KeepsTicket(step) { SameTicketStays(c, s, step); }
  }

  lemma ControlStays(c: Config, s: State, step: Step, v: nat)
    requires Placed(s) && TraceInv(c, s) && Enabled(s, step) && !IsWorkerStep(step) && v < |Apply(c, s, step).workers|
    ensures ClearingUnderWay(c, Apply(c, s, step), v)
  {
    if !step.Cancel? {
      assert ClearingUnderWay(c, s, v);
      if !s.workers[v].Idle? { assert s.Holding(v, s.workers[v].t); MarkedStays(c, s, step, s.workers[v].t); }
    }
  }

  lemma EveryWorkerStays(c: Config, s: State, step: Step, v: nat)
    requires Placed(s) && TraceInv(c, s) && Enabled(s, step) && v < |Apply(c, s, step).workers|
    ensures ClearingUnderWay(c, Apply(c, s, step), v)
  {
    hide ClearingUnderWay, EventInv, Placed;
    if !IsWorkerStep(step) { ControlStays(c, s, step, v); }
    else if v == step.w { SameWorkerStays(c, s, step); }
    else { OtherWorkerStays(c, s, step, v); }
  }

  /** The event, if any, that the step adds. */
  lemma AddedEventHolds(c: Config, s: State, step: Step, k: nat)
    requires Placed(s) && TraceInv(c, s) && Enabled(s, step) && |s.trace| <= k < |Apply(c, s, step).trace|
    ensures EventInv(c, Apply(c, s, step), k)
  {
    hide Placed, ClearedBefore;
    if step.ResolveParameters? { NewEventHolds(c, s, step.w); }
  }

  lemma StepKeepsTraceInv(c: Config, s: State, step: Step)
    requires Placed(s) && TraceInv(c, s) && Enabled(s, step)
    ensures TraceInv(c, Apply(c, s, step))
  {
    hide ClearingUnderWay, EventInv, Placed, Apply;
    var s' := Apply(c, s, step);
    forall v | 0 <= v < |s'.workers| ensures ClearingUnderWay(c, s', v) { EveryWorkerStays(c, s, step, v); }
    forall k | 0 <= k < |s'.trace| ensures EventInv(c, s', k) {
      if k < |s.trace| { OldEventStays(c, s, step, k); } else { AddedEventHolds(c, s, step, k); }
    }
  }

  lemma PlacedIfInv(s: State)
    requires Inv(s)
    ensures Placed(s)
  {
  }

  lemma {:induction false} RunKeepsTraceInv(c: Config, run: seq<State>, steps: seq<Step>, i: nat)
    requires IsRun(c, run, steps) && i < |run|
    ensures TraceInv(c, run[i])
  {
    if i == 0 {
      var workers: nat :| run[0] == Initial(workers);
    } else {
      hide Apply, Enabled, TraceInv, Inv;
      RunKeepsTraceInv(c, run, steps, i - 1);
      RunKeepsInv(c, run, steps, i - 1);
      PlacedIfInv(run[i - 1]);
      assert StepsTo(c, run[i - 1], steps[i - 1], run[i - 1 + 1]);
      StepKeepsTraceInv(c, run[i - 1], steps[i - 1]);
    }
  }

  /** In every run, an item is handed to the engine at most once, and if its own registration marks the
      document every clearing call that exists came first. */
  lemma ProcessedOnceAndCleared(c: Config, run: seq<State>, steps: seq<Step>, i: nat, k: nat)
    requires IsRun(c, run, steps) && i < |run| && k < |run[i].trace| && run[i].trace[k].call == Process
    ensures forall j | 0 <= j < |run[i].trace| && j != k && run[i].trace[j].call == Process ::
      run[i].trace[j].t != run[i].trace[k].t
    ensures run[i].Marked(run[i].trace[k].t) ==> ClearedBefore(c, run[i].trace, k, run[i].trace[k].t)
  {
    RunKeepsTraceInv(c, run, steps, i);
    assert EventInv(c, run[i], k);
    forall j | k < j < |run[i].trace| && run[i].trace[j].call == Process
      ensures run[i].trace[j].t != run[i].trace[k].t
    {
      assert EventInv(c, run[i], j);
    }
  }

  // ---------- the steps are those of the sequential handling ----------

  /** What a worker's step with a ticket of a batch does, written out. A missing row, a load that raises, a processing
      that returns, and the end of an attempt to mark the row as failed each settle the ticket and hand one result to
      the callback, counted and counted down; no other step does. Clearing and processing leave their engine call in
      the trace, in the order in which they happen. */
  lemma StepFires(c: Config, s: State, step: Step, t: nat, b: nat)
    requires Enabled(s, step) && IsWorkerStep(step) && !step.Dequeue?
    requires s.workers[step.w].t == t < |s.items| && s.items[t].batch == Some(b) && b < |s.batches|
    ensures var p, s' := s.batches[b].progress, Apply(c, s, step);
      var fires := (step.Load? && step.outcome != Row) || (step.Processed? && !step.raises) || step.StatusUpdated?;
      var skipped := step.Load? && step.outcome == RowGone;
      var result := DocumentResult(s.items[t].docId, skipped || step.Processed?, skipped);
      && |s'.batches| == |s.batches|
      && s'.settled == (if fires then s.settled + {t} else s.settled)
      && (if fires then
            s'.batches[b].progress == Progress(p.total, p.completed + 1,
                                               if result.success then p.failed else p.failed + 1, p.remaining - 1,
                                               p.done || p.remaining <= 1,
                                               p.calls + [Call(p.completed + 1, p.total, result, p.done)])
          else s'.batches[b].progress == p)
      && s'.trace == s.trace + (if step.ChunksCleared? then [Event(t, ClearChunks)]
                                else if step.StateCleared? then [Event(t, ClearState)]
                                else if step.ResolveParameters? && !step.raises then [Event(t, Process)]
                                else [])
  {
    assert forall trace: seq<Event> :: trace + [] == trace;
  }

  /** Where a worker goes with a ticket of a batch that it keeps: through the batch's semaphore and then the engine's
      calls, the clearing ones only for a marked document, as far as they exist; and out again when something raises. */
  lemma StepGoesOn(c: Config, s: State, step: Step, t: nat, b: nat)
    requires Enabled(s, step) && IsWorkerStep(step) && !step.Dequeue?
    requires s.workers[step.w].t == t < |s.items| && s.items[t].batch == Some(b) && b < |s.batches|
    ensures var s', marked := Apply(c, s, step), s.items[t].docId in s.batches[b].marked;
      var pc := s'.workers[step.w];
      && (step.Load? && step.outcome == Row ==> pc == AwaitingSlot(t))
      && (step.TakeSlot? ==> pc == Preparing(t) && s'.batches[b].free == s.batches[b].free - 1)
      && (step.ResolveEngine? ==>
            pc == if step.raises then FallingBack(t) else if !step.supported then MarkingFailed(t)
                  else if marked && c.hasVectorStore then ClearingChunks(t)
                  else if marked && c.hasClear then ClearingState(t) else Resolving(t))
      && (step.ChunksCleared? ==> pc == if c.hasClear then ClearingState(t) else Resolving(t))
      && (step.StateCleared? ==> pc == Resolving(t))
      && (step.ResolveParameters? ==> pc == if step.raises then FallingBack(t) else Processing(t))
      && (step.Processed? && step.raises ==> pc == if step.handlerRaises then FallingBack(t) else MarkingFailed(t))
      && (pc.Idle? || pc.FallingBack? ==>
            s'.batches[b].free == s.batches[b].free + if step.Load? || s.workers[step.w].FallingBack? then 0 else 1)
  {
  }

  /** The step that worker w takes next when its calls turn out as o says. */
  function NextStep(s: State, w: nat, o: Outcomes): Step
    requires w < |s.workers| && !s.workers[w].Idle?
  {
    match s.workers[w]
    case Loading(_) => Load(w, o.load)
    case AwaitingSlot(_) => TakeSlot(w)
    case Preparing(_) => ResolveEngine(w, o.engineRaises, o.supported)
    case ClearingChunks(_) => ChunksCleared(w)
    case ClearingState(_) => StateCleared(w)
    case Resolving(_) => ResolveParameters(w, o.preTryRaises)
    case Processing(_) => Processed(w, o.processRaises || o.usageRaises, o.handlerRaises)
    case _ => StatusUpdated(w)
  }

  /** The result that a worker at pc is going to fire. */
  function ResultAt(pc: Pc, docId: nat, o: Outcomes): DocumentResult
    requires !pc.Idle?
  {
    match pc
    case Loading(_) => ItemResult(docId, o)
    case Processing(_) => DocumentResult(docId, !o.processRaises && !o.usageRaises, false)
    case MarkingFailed(_) => DocumentResult(docId, false, false)
    case FallingBack(_) => DocumentResult(docId, false, false)
    case ClearingChunks(_) => DocumentResult(docId, !o.preTryRaises && !o.processRaises && !o.usageRaises, false)
    case ClearingState(_) => DocumentResult(docId, !o.preTryRaises && !o.processRaises && !o.usageRaises, false)
    case Resolving(_) => DocumentResult(docId, !o.preTryRaises && !o.processRaises && !o.usageRaises, false)
    case _ => DocumentResult(docId, Succeeds(o), false)
  }

  /** Whether ticket t of batch b is in worker w's hands with room to go on undisturbed. */
  ghost predicate Undisturbed(s: State, w: nat, t: nat, b: nat) {
    s.running && s.Holding(w, t) && t < |s.items| && s.items[t].batch == Some(b) && b < |s.batches|
    && (s.workers[w].Loading? || s.workers[w].AwaitingSlot? ==> s.batches[b].free > 0)
  }

  /** A step either fires the promised result and leaves the worker idle, or brings it closer with
      the same result promised. */
  ghost predicate Furthers(s: State, s': State, w: nat, t: nat, b: nat, o: Outcomes)
    requires Undisturbed(s, w, t, b)
  {
    |s'.workers| == |s.workers| && |s'.batches| == |s.batches| &&
    if s'.workers[w].Idle?
    then s'.batches[b].progress == Fire(s.batches[b].progress, ResultAt(s.workers[w], s.items[t].docId, o))
    else Undisturbed(s', w, t, b) && Rank(s'.workers[w]) < Rank(s.workers[w])
         && s'.items == s.items && s'.batches[b].progress == s.batches[b].progress
         && ResultAt(s'.workers[w], s.items[t].docId, o) == ResultAt(s.workers[w], s.items[t].docId, o)
  }

  predicate IsEarly(pc: Pc) { pc.Loading? || pc.AwaitingSlot? || pc.Preparing? }

  predicate IsMiddle(pc: Pc) { pc.ClearingChunks? || pc.ClearingState? || pc.Resolving? }

  lemma EarlyStepServes(c: Config, s: State, w: nat, t: nat, b: nat, o: Outcomes)
    requires Undisturbed(s, w, t, b) && IsEarly(s.workers[w])
    ensures Enabled(s, NextStep(s, w, o)) && Furthers(s, Apply(c, s, NextStep(s, w, o)), w, t, b, o)
  {
    hide Fire, State.Marked;
  }

  lemma MiddleStepServes(c: Config, s: State, w: nat, t: nat, b: nat, o: Outcomes)
    requires Undisturbed(s, w, t, b) && IsMiddle(s.workers[w])
    ensures Enabled(s, NextStep(s, w, o)) && Furthers(s, Apply(c, s, NextStep(s, w, o)), w, t, b, o)
  {
    hide Fire, State.Marked;
  }

  lemma LateStepServes(c: Config, s: State, w: nat, t: nat, b: nat, o: Outcomes)
    requires Undisturbed(s, w, t, b) && !IsEarly(s.workers[w]) && !IsMiddle(s.workers[w])
    ensures Enabled(s, NextStep(s, w, o)) && Furthers(s, Apply(c, s, NextStep(s, w, o)), w, t, b, o)
  {
    hide Fire, State.Marked;
  }

  /** Worker w alone takes steps, and at the end it is idle and the result r has been fired for batch b. */
  ghost predicate Finishes(c: Config, path: seq<State>, steps: seq<Step>, w: nat, b: nat, r: DocumentResult) {
    && IsPath(c, path, steps) && (forall k | 0 <= k < |steps| :: IsWorkerStep(steps[k]) && steps[k].w == w)
    && w < |path[|steps|].workers| && path[|steps|].workers[w].Idle?
    && b < |path[0].batches| && b < |path[|steps|].batches|
    && path[|steps|].batches[b].progress == Fire(path[0].batches[b].progress, r)
  }

  lemma StepInFront(c: Config, s: State, step: Step, path: seq<State>, steps: seq<Step>)
    requires IsPath(c, path, steps) && StepsTo(c, s, step, path[0])
    ensures IsPath(c, [s] + path, [step] + steps)
  {
    var path', steps' := [s] + path, [step] + steps;
    forall k | 0 <= k < |steps'| ensures StepsTo(c, path'[k], steps'[k], path'[k + 1]) {
      if k > 0 { assert StepsTo(c, path[k - 1], steps[k - 1], path[k - 1 + 1]); }
    }
  }

  /** The whole of w's steps, run without interruption. */
  lemma {:induction false} DriveToIdle(c: Config, s: State, w: nat, t: nat, b: nat, o: Outcomes)
    returns (path: seq<State>, steps: seq<Step>)
    requires Undisturbed(s, w, t, b)
    ensures path != [] && path[0] == s
    ensures Finishes(c, path, steps, w, b, ResultAt(s.workers[w], s.items[t].docId, o))
    decreases Rank(s.workers[w])
  {
    hide Fire, Apply, ResultAt, Enabled;
    if IsEarly(s.workers[w]) { EarlyStepServes(c, s, w, t, b, o); }
    else if IsMiddle(s.workers[w]) { MiddleStepServes(c, s, w, t, b, o); }
    else { LateStepServes(c, s, w, t, b, o); }
    var step := NextStep(s, w, o);
    var s' := Apply(c, s, step);
    path, steps := [s'], [];
    if !s'.workers[w].Idle? { path, steps := DriveToIdle(c, s', w, t, b, o); }
    assert StepsTo(c, s, step, path[0]);
    StepInFront(c, s, step, path, steps);
    path, steps := [s] + path, [step] + steps;
  }

  /** A worker that has just dequeued an item and is left alone fires exactly what the sequential
      handling of the item fires, whatever its calls do. */
  lemma StepsFollowHandling(c: Config, s: State, w: nat, t: nat, b: nat, o: Outcomes)
    returns (path: seq<State>, steps: seq<Step>)
    requires Undisturbed(s, w, t, b) && s.workers[w].Loading?
    ensures path != [] && path[0] == s
    ensures Finishes(c, path, steps, w, b, ItemResult(s.items[t].docId, o))
  {
    path, steps := DriveToIdle(c, s, w, t, b, o);
  }
}
