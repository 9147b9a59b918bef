/** The pending processor as a step system: one queue, a pool of workers interleaving between any
    two awaits, batches counting down, per-batch slots, cancellation. Every external call may
    return or raise. */
module PendingProcessor {
  import opened Options
  import opened Sizes
  import opened BatchResults

  /** What the storage and the engine offer for clearing earlier attempts. */
  datatype Config = Config(hasVectorStore: bool, hasClear: bool)

  /** A queued document; orphans belong to no batch. An item is known by its ticket, its position
      among all the items ever queued. */
  datatype Item = Item(docId: nat, batch: Option<nat>)

  /** Where a worker is: between which awaits, and with which ticket. */
  datatype Pc =
    | Idle
    | Loading(t: nat)
    | AwaitingSlot(t: nat)
    | Preparing(t: nat)
    | ClearingChunks(t: nat)
    | ClearingState(t: nat)
    | Resolving(t: nat)
    | Processing(t: nat)
    | MarkingFailed(t: nat)
    | FallingBack(t: nat)

  /** The stretch that runs inside the batch's semaphore. */
  predicate InSlot(pc: Pc) {
    pc.Preparing? || pc.ClearingChunks? || pc.ClearingState? || pc.Resolving? || pc.Processing? || pc.MarkingFailed?
  }

  /** early counts the results fired at submission; delivered lists the tickets whose results
      followed. An abandoned batch was refused because nothing was running to process it. */
  datatype Batch = Batch(progress: Progress, early: nat, delivered: seq<nat>, abandoned: bool,
                         marked: set<nat>, limit: nat, free: nat)

  datatype Event = Event(t: nat, call: EngineCall)

  datatype State = State(items: seq<Item>, queue: seq<nat>, workers: seq<Pc>, running: bool,
                         batches: seq<Batch>, settled: set<nat>, lost: set<nat>, trace: seq<Event>)
  {
    ghost function TicketsOf(b: nat): set<nat> { set t | 0 <= t < |items| && items[t].batch == Some(b) }

    /** Worker w has ticket t in its hands. */
    predicate Holding(w: nat, t: nat) { w < |workers| && !workers[w].Idle? && workers[w].t == t }

    ghost predicate Held(t: nat) { exists w :: Holding(w, t) }

    ghost predicate Somewhere(t: nat) { t in queue || Held(t) || t in lost || t in settled }

    predicate SlotOf(w: nat, b: nat) {
      w < |workers| && InSlot(workers[w]) && workers[w].t < |items| && items[workers[w].t].batch == Some(b)
    }

    ghost function Holders(b: nat): set<nat> { set w | 0 <= w < |workers| && SlotOf(w, b) }

    predicate Marked(t: nat) {
      t < |items| && items[t].batch.Some? && items[t].batch.value < |batches|
      && items[t].docId in batches[items[t].batch.value].marked
    }
  }

  datatype Step =
    | Start
    | Submit(failed: seq<nat>, skipped: seq<nat>, pending: seq<nat>, marked: set<nat>, limit: nat)
    | EnqueueOrphan(docId: nat)
    | Dequeue(w: nat)
    | Load(w: nat, outcome: Loaded)
    | TakeSlot(w: nat)
    | ResolveEngine(w: nat, raises: bool, supported: bool)
    | ChunksCleared(w: nat)
    | StateCleared(w: nat)
    | ResolveParameters(w: nat, raises: bool)
    | Processed(w: nat, raises: bool, handlerRaises: bool)
    | StatusUpdated(w: nat)
    | Cancel

  predicate IsWorkerStep(step: Step) {
    !step.Start? && !step.Submit? && !step.EnqueueOrphan? && !step.Cancel?
  }

  predicate Enabled(s: State, step: Step) {
    match step
    case Start => !s.running
    case Submit(_, _, _, _, limit) => limit >= 1
    case EnqueueOrphan(_) => true
    case Cancel => s.running
    case Dequeue(w) => s.running && w < |s.workers| && s.workers[w].Idle? && s.queue != []
    case Load(w, _) => s.running && w < |s.workers| && s.workers[w].Loading?
    case TakeSlot(w) =>
      && s.running && w < |s.workers| && s.workers[w].AwaitingSlot? && s.workers[w].t < |s.items|
      && s.items[s.workers[w].t].batch.Some? && s.items[s.workers[w].t].batch.value < |s.batches|
      && s.batches[s.items[s.workers[w].t].batch.value].free > 0
    case ResolveEngine(w, _, _) => s.running && w < |s.workers| && s.workers[w].Preparing?
    case ChunksCleared(w) => s.running && w < |s.workers| && s.workers[w].ClearingChunks?
    case StateCleared(w) => s.running && w < |s.workers| && s.workers[w].ClearingState?
    case ResolveParameters(w, _) => s.running && w < |s.workers| && s.workers[w].Resolving?
    case Processed(w, _, _) => s.running && w < |s.workers| && s.workers[w].Processing?
    case StatusUpdated(w) => s.running && w < |s.workers| && (s.workers[w].MarkingFailed? || s.workers[w].FallingBack?)
  }

  /** Worker w goes on with the same ticket. */
  function Goto(s: State, w: nat, pc: Pc): State
    requires w < |s.workers|
  {
    s.(workers := s.workers[w := pc])
  }

  function SetFree(s: State, b: nat, free: nat): State
    requires b < |s.batches|
  {
    s.(batches := s.batches[b := s.batches[b].(free := free)])
  }

  /** Worker w leaves the semaphore, if its ticket belongs to a batch. */
  function LeaveSlot(s: State, t: nat): State {
    if t < |s.items| && s.items[t].batch.Some? && s.items[t].batch.value < |s.batches|
    then SetFree(s, s.items[t].batch.value, s.batches[s.items[t].batch.value].free + 1) else s
  }

  /** Worker w is through with ticket t: the result is fired if it belongs to a batch. */
  function Finish(s: State, w: nat, t: nat, success: bool, skipped: bool): State
    requires w < |s.workers|
  {
    var s1 := s.(workers := s.workers[w := Idle], settled := s.settled + {t});
    if t < |s.items| && s.items[t].batch.Some? && s.items[t].batch.value < |s.batches| then
      var b, batch := s.items[t].batch.value, s.batches[s.items[t].batch.value];
      s1.(batches := s.batches[b := batch.(
        progress := Fire(batch.progress, DocumentResult(s.items[t].docId, success, skipped)),
        delivered := batch.delivered + [t])])
    else s1
  }

  /** Where a worker with a supporting engine goes after preparing, and after clearing chunks. */
  function AfterPreparing(c: Config, s: State, t: nat): Pc {
    if !s.Marked(t) then Resolving(t) else if c.hasVectorStore then ClearingChunks(t) else AfterChunks(c, t)
  }

  function AfterChunks(c: Config, t: nat): Pc {
    if c.hasClear then ClearingState(t) else Resolving(t)
  }

  function EarlyResults(failed: seq<nat>, skipped: seq<nat>): seq<DocumentResult> {
    seq(|failed|, i requires 0 <= i < |failed| => DocumentResult(failed[i], false, false))
    + seq(|skipped|, i requires 0 <= i < |skipped| => DocumentResult(skipped[i], true, true))
  }

  /** The batch's early results are fired and its pending documents queued, all without an await
      in between. With documents to process and no processor running the submission is refused. */
  function SubmitBatch(s: State, failed: seq<nat>, skipped: seq<nat>, pending: seq<nat>, marked: set<nat>,
                       limit: nat): State {
    var early := EarlyResults(failed, skipped);
    var refused := pending != [] && !s.running;
    var batch := Batch(FireAll(Started(|early| + |pending|), early), |early|, [], refused, marked, limit, limit);
    var added :=
      if refused then [] else seq(|pending|, i requires 0 <= i < |pending| => Item(pending[i], Some(|s.batches|)));
    s.(batches := s.batches + [batch],
       items := s.items + added,
       queue := s.queue + seq(|added|, i => |s.items| + i))
  }

  /** Cancelled workers drop what they hold and release their slots. */
  function CancelAll(s: State): State {
    s.(running := false,
       workers := seq(|s.workers|, _ => Idle),
       batches := seq(|s.batches|, b requires 0 <= b < |s.batches| => s.batches[b].(free := s.batches[b].limit)),
       lost := s.lost + set w | 0 <= w < |s.workers| && !s.workers[w].Idle? :: s.workers[w].t)
  }

  function Apply(c: Config, s: State, step: Step): State
    requires Enabled(s, step)
  {
    match step
    case Start => s.(running := true)
    case Submit(failed, skipped, pending, marked, limit) => SubmitBatch(s, failed, skipped, pending, marked, limit)
    case EnqueueOrphan(docId) => s.(items := s.items + [Item(docId, None)], queue := s.queue + [|s.items|])
    case Cancel => CancelAll(s)
    case Dequeue(w) => s.(queue := s.queue[1..], workers := s.workers[w := Loading(s.queue[0])])
    case Load(w, outcome) =>
      var t := s.workers[w].t;
      (match outcome
       case LoadRaised => Finish(s, w, t, false, false)
       case RowGone => Finish(s, w, t, true, true)
       case Row => Goto(s, w, if t < |s.items| && s.items[t].batch.Some? then AwaitingSlot(t) else Preparing(t)))
    case TakeSlot(w) =>
      var t := s.workers[w].t;
      var b := s.items[t].batch.value;
      Goto(SetFree(s, b, s.batches[b].free - 1), w, Preparing(t))
    case ResolveEngine(w, raises, supported) =>
      var t := s.workers[w].t;
      if raises then Goto(LeaveSlot(s, t), w, FallingBack(t))
      else if !supported then Goto(s, w, MarkingFailed(t))
      else Goto(s, w, AfterPreparing(c, s, t))
    case ChunksCleared(w) =>
      var t := s.workers[w].t;
      Goto(s.(trace := s.trace + [Event(t, ClearChunks)]), w, AfterChunks(c, t))
    case StateCleared(w) =>
      var t := s.workers[w].t;
      Goto(s.(trace := s.trace + [Event(t, ClearState)]), w, Resolving(t))
    case ResolveParameters(w, raises) =>
      var t := s.workers[w].t;
      if raises then Goto(LeaveSlot(s, t), w, FallingBack(t))
      else Goto(s.(trace := s.trace + [Event(t, Process)]), w, Processing(t))
    case Processed(w, raises, handlerRaises) =>
      var t := s.workers[w].t;
      if !raises then Finish(LeaveSlot(s, t), w, t, true, false)
      else if handlerRaises then Goto(LeaveSlot(s, t), w, FallingBack(t))
      else Goto(s, w, MarkingFailed(t))
    case StatusUpdated(w) =>
      var t := s.workers[w].t;
      Finish(if s.workers[w].MarkingFailed? then LeaveSlot(s, t) else s, w, t, false, false)
  }

  // ---------- the invariant ----------

  ghost predicate QueueInv(s: State) {
    && (forall t | t in s.queue :: t < |s.items| && t !in s.settled && t !in s.lost && !s.Held(t))
    && (forall i, j | 0 <= i < j < |s.queue| :: s.queue[i] != s.queue[j])
  }

  ghost predicate HeldInv(s: State) {
    && (forall w: nat, t: nat | s.Holding(w, t) :: t < |s.items| && t !in s.settled && t !in s.lost)
    && (forall v: nat, w: nat, t: nat | s.Holding(v, t) && s.Holding(w, t) :: v == w)
  }

  ghost predicate Accounted(s: State) {
    && (forall t: nat | t < |s.items| :: s.Somewhere(t))
    && (forall t | t in s.settled || t in s.lost :: t < |s.items|)
    && s.settled !! s.lost
  }

  ghost predicate WellKept(s: State) {
    && (forall w | 0 <= w < |s.workers| && s.workers[w].AwaitingSlot? ::
          s.workers[w].t < |s.items| && s.items[s.workers[w].t].batch.Some?)
    && (forall t | 0 <= t < |s.items| && s.items[t].batch.Some? :: s.items[t].batch.value < |s.batches|)
    && (!s.running ==> forall w | 0 <= w < |s.workers| :: s.workers[w].Idle?)
  }

  /** Every ticket is in exactly one place: queued, held by one worker, lost to a cancellation, or
      settled. */
  ghost predicate Placed(s: State) {
    QueueInv(s) && HeldInv(s) && Accounted(s) && WellKept(s)
  }

  /** The counts of a batch: the results fired at submission, then one for every settled ticket of
      the batch; what is missing are the tickets not settled yet, or the documents of a refused
      submission. */
  ghost predicate CountsInv(batch: Batch, mine: set<nat>, settled: set<nat>) {
    var p := batch.progress;
    && Consistent(p)
    && p.completed == batch.early + |batch.delivered|
    && |batch.delivered| == |settled * mine|
    && p.total == batch.early + |mine| + (if batch.abandoned then p.remaining else 0)
    && (batch.abandoned ==> p.remaining > 0 && mine == {})
  }

  /** The tickets that a batch has delivered results for are its settled ones, each once. */
  ghost predicate DeliveredInv(delivered: seq<nat>, mine: set<nat>, settled: set<nat>) {
    && (forall i, j | 0 <= i < j < |delivered| :: delivered[i] != delivered[j])
    && (forall t :: t in delivered <==> t in settled && t in mine)
  }

  /** The results after the early ones name the documents of the delivered tickets. */
  ghost predicate ResultsNameDocuments(calls: seq<Call>, early: nat, delivered: seq<nat>, items: seq<Item>) {
    |calls| == early + |delivered| &&
    forall i | 0 <= i < |delivered| ::
      delivered[i] < |items| && calls[early + i].result.docId == items[delivered[i]].docId
  }

  ghost predicate ResultsInv(batch: Batch, mine: set<nat>, settled: set<nat>, items: seq<Item>) {
    && CountsInv(batch, mine, settled)
    && DeliveredInv(batch.delivered, mine, settled)
    && ResultsNameDocuments(batch.progress.calls, batch.early, batch.delivered, items)
  }

  /** The slots of a batch are free or held by one worker each. */
  ghost predicate SlotsInv(s: State, b: nat)
    requires b < |s.batches|
  {
    s.batches[b].limit >= 1 && s.batches[b].free + |s.Holders(b)| == s.batches[b].limit
  }

  ghost predicate BatchInv(s: State, b: nat)
    requires b < |s.batches|
  {
    ResultsInv(s.batches[b], s.TicketsOf(b), s.settled, s.items) && SlotsInv(s, b)
  }

  ghost predicate Inv(s: State) {
    Placed(s) && forall b | 0 <= b < |s.batches| :: BatchInv(s, b)
  }

  function Initial(workers: nat): State {
    State([], [], seq(workers, _ => Idle), false, [], {}, {}, [])
  }

  // ---------- every step keeps it ----------

  /** Only worker w moves. */
  ghost predicate OnlyWorker(s: State, s': State, w: nat) {
    w < |s.workers| == |s'.workers| && forall v | 0 <= v < |s.workers| && v != w :: s'.workers[v] == s.workers[v]
  }

  lemma HoldingAfter(s: State, s': State, w: nat, t: nat)
    requires OnlyWorker(s, s', w)
    ensures forall v | v != w :: s'.Holding(v, t) <==> s.Holding(v, t)
    ensures s.Held(t) && !s.Holding(w, t) ==> s'.Held(t)
    ensures s'.Held(t) && !s'.Holding(w, t) ==> s.Held(t)
  {
    if s.Held(t) && !s.Holding(w, t) {
      var v :| s.Holding(v, t);
      assert s'.Holding(v, t);
    }
    if s'.Held(t) && !s'.Holding(w, t) {
      var v :| s'.Holding(v, t);
      assert s.Holding(v, t);
    }
  }

  /** A worker goes on with its ticket. */
  lemma GotoPlaced(s: State, s': State, w: nat)
    requires Placed(s) && s.running && OnlyWorker(s, s', w) && !s.workers[w].Idle?
    requires !s'.workers[w].Idle? && s'.workers[w].t == s.workers[w].t
    requires s'.workers[w].AwaitingSlot? ==> s.workers[w].t < |s.items| && s.items[s.workers[w].t].batch.Some?
    requires s'.items == s.items && s'.queue == s.queue && s'.settled == s.settled && s'.lost == s.lost
      && s'.running == s.running
    requires |s'.batches| == |s.batches|
    ensures Placed(s')
  {
    forall t: nat ensures s'.Held(t) <==> s.Held(t) {
      HoldingAfter(s, s', w, t);
      assert s.Holding(w, t) <==> s'.Holding(w, t);
    }
    forall v: nat, t: nat ensures s'.Holding(v, t) <==> s.Holding(v, t) { }
    forall t: nat | t < |s.items| ensures s'.Somewhere(t) { assert s.Somewhere(t); }
  }

  /** A worker is through with its ticket. */
  lemma FinishPlaced(s: State, s': State, w: nat)
    requires Placed(s) && s.running && OnlyWorker(s, s', w) && !s.workers[w].Idle? && s'.workers[w].Idle?
    requires s'.items == s.items && s'.queue == s.queue && s'.lost == s.lost && s'.running == s.running
    requires s'.settled == s.settled + {s.workers[w].t} && |s'.batches| == |s.batches|
    ensures Placed(s')
  {
    var done := s.workers[w].t;
    assert s.Holding(w, done);
    forall t: nat ensures s'.Held(t) <==> s.Held(t) && t != done {
      HoldingAfter(s, s', w, t);
      assert s.Holding(w, t) <==> t == done;
      assert !s'.Holding(w, t);
    }
    forall t: nat | t < |s.items| ensures s'.Somewhere(t) { assert s.Somewhere(t); }
    forall v: nat, t: nat | s'.Holding(v, t) ensures s.Holding(v, t) { }
  }

  lemma DequeuePlaced(s: State, s': State, w: nat)
    requires Placed(s) && s.running && OnlyWorker(s, s', w) && s.workers[w].Idle? && s.queue != []
    requires s'.workers[w] == Loading(s.queue[0]) && s'.queue == s.queue[1..]
    requires s'.items == s.items && s'.settled == s.settled && s'.lost == s.lost && s'.running == s.running
    requires |s'.batches| == |s.batches|
    ensures Placed(s')
  {
    var first := s.queue[0];
    assert first in s.queue;
    assert s.queue == [first] + s'.queue;
    assert s'.Holding(w, first);
    forall t: nat ensures s'.Held(t) <==> s.Held(t) || t == first {
      HoldingAfter(s, s', w, t);
      assert s'.Holding(w, t) <==> t == first;
      assert !s.Holding(w, t);
    }
    forall t: nat | t < |s.items| ensures s'.Somewhere(t) { assert s.Somewhere(t); }
    forall v: nat, t: nat | v != w && s'.Holding(v, t) ensures s.Holding(v, t) && s.Held(t) {
      assert s.Holding(v, t);
    }
    forall i, j | 0 <= i < j < |s'.queue| ensures s'.queue[i] != s'.queue[j] {
      assert s.queue[i + 1] != s.queue[j + 1];
    }
    forall t | t in s'.queue ensures t != first {
      var i :| 0 <= i < |s'.queue| && s'.queue[i] == t;
      assert s.queue[i + 1] != s.queue[0];
    }
  }

  /** New items go to the end of the queue. */
  lemma EnqueuePlaced(s: State, s': State, added: seq<Item>)
    requires Placed(s)
    requires s'.items == s.items + added && s'.queue == s.queue + seq(|added|, i => |s.items| + i)
    requires s'.workers == s.workers && s'.settled == s.settled && s'.lost == s.lost && s'.running == s.running
    requires |s.batches| <= |s'.batches|
    requires forall i | 0 <= i < |added| && added[i].batch.Some? :: added[i].batch.value < |s'.batches|
    ensures Placed(s')
  {
    forall v: nat, t: nat ensures s'.Holding(v, t) <==> s.Holding(v, t) { }
    forall t: nat ensures s'.Held(t) <==> s.Held(t) {
      if s.Held(t) { var v :| s.Holding(v, t); assert s'.Holding(v, t); }
      if s'.Held(t) { var v :| s'.Holding(v, t); assert s.Holding(v, t); }
    }
    forall t ensures t in s'.queue <==> t in s.queue || |s.items| <= t < |s'.items| {
      if |s.items| <= t < |s'.items| { assert s'.queue[|s.queue| + (t - |s.items|)] == t; }
      if t in s.queue { var i :| 0 <= i < |s.queue| && s.queue[i] == t; assert s'.queue[i] == t; }
    }
    forall t: nat | t < |s'.items| ensures s'.Somewhere(t) {
      if t < |s.items| { assert s.Somewhere(t); }
    }
    forall i, j | 0 <= i < j < |s'.queue| ensures s'.queue[i] != s'.queue[j] {
      if i < |s.queue| <= j { assert s.queue[i] in s.queue; }
    }
  }

  lemma CancelPlaced(s: State)
    requires Placed(s)
    ensures Placed(CancelAll(s))
  {
    var s' := CancelAll(s);
    forall t: nat ensures t in s'.lost <==> t in s.lost || s.Held(t) {
      if s.Held(t) { var w :| s.Holding(w, t); }
      if t in s'.lost && t !in s.lost {
        var w :| 0 <= w < |s.workers| && !s.workers[w].Idle? && s.workers[w].t == t;
        assert s.Holding(w, t);
      }
    }
    forall t: nat | t < |s.items| ensures s'.Somewhere(t) { assert s.Somewhere(t); }
  }

  lemma StartPlaced(s: State)
    requires Placed(s)
    ensures Placed(s.(running := true))
  {
    var s' := s.(running := true);
    forall v: nat, t: nat ensures s'.Holding(v, t) <==> s.Holding(v, t) { }
    forall t: nat ensures s'.Held(t) <==> s.Held(t) {
      if s.Held(t) { var v :| s.Holding(v, t); assert s'.Holding(v, t); }
      if s'.Held(t) { var v :| s'.Holding(v, t); assert s.Holding(v, t); }
    }
    forall t: nat | t < |s.items| ensures s'.Somewhere(t) { assert s.Somewhere(t); }
  }

  /** The steps that leave a worker with the ticket it had. */
  predicate KeepsTicket(step: Step) {
    match step
    case Load(_, outcome) => outcome == Row
    case TakeSlot(_) => true
    case ResolveEngine(_, _, _) => true
    case ChunksCleared(_) => true
    case StateCleared(_) => true
    case ResolveParameters(_, _) => true
    case Processed(_, raises, _) => raises
    case _ => false
  }

  /** The steps that settle a worker's ticket. */
  predicate Settles(step: Step) {
    IsWorkerStep(step) && !step.Dequeue? && !KeepsTicket(step)
  }

  /** Worker w goes on with its ticket; apart from free slots, the batches stay as they are. */
  ghost predicate WentOn(s: State, s': State, w: nat) {
    && s.running && s'.running && OnlyWorker(s, s', w) && !s.workers[w].Idle? && !s'.workers[w].Idle?
    && s'.workers[w].t == s.workers[w].t
    && (s'.workers[w].AwaitingSlot? ==> s.workers[w].t < |s.items| && s.items[s.workers[w].t].batch.Some?)
    && s'.items == s.items && s'.queue == s.queue && s'.settled == s.settled && s'.lost == s.lost
    && |s'.batches| == |s.batches|
    && forall b | 0 <= b < |s.batches| :: s'.batches[b] == s.batches[b].(free := s'.batches[b].free)
  }

  /** Worker w is through with its ticket, and a result was fired if the ticket has a batch. */
  ghost predicate WasSettled(s: State, s': State, w: nat, success: bool, skipped: bool) {
    && s.running && s'.running && OnlyWorker(s, s', w) && !s.workers[w].Idle? && s'.workers[w].Idle?
    && s'.items == s.items && s'.queue == s.queue && s'.lost == s.lost
    && s'.settled == s.settled + {s.workers[w].t}
    && |s'.batches| == |s.batches|
    && forall b | 0 <= b < |s.batches| ::
      s'.batches[b].(free := 0) == BatchAfter(s, b, s.workers[w].t, success, skipped).(free := 0)
  }

  ghost function BatchAfter(s: State, b: nat, t: nat, success: bool, skipped: bool): Batch
    requires b < |s.batches|
  {
    if t < |s.items| && s.items[t].batch == Some(b)
    then s.batches[b].(progress := Fire(s.batches[b].progress, DocumentResult(s.items[t].docId, success, skipped)),
                       delivered := s.batches[b].delivered + [t])
    else s.batches[b]
  }

  lemma KeepsTicketWentOn(c: Config, s: State, step: Step)
    requires Enabled(s, step) && KeepsTicket(step)
    ensures WentOn(s, Apply(c, s, step), step.w)
  {
    hide Fire, State.Marked;
  }

  lemma SettlesWasSettled(c: Config, s: State, step: Step)
    requires Enabled(s, step) && Settles(step)
    ensures WasSettled(s, Apply(c, s, step), step.w, step.Processed? || (step.Load? && step.outcome == RowGone),
                       step.Load? && step.outcome == RowGone)
  {
    hide Fire, State.Marked;
  }

  lemma StepPlaced(c: Config, s: State, step: Step)
    requires Placed(s) && Enabled(s, step)
    ensures Placed(Apply(c, s, step))
  {
    if KeepsTicket(step) {
      KeepsTicketWentOn(c, s, step);
      GotoPlaced(s, Apply(c, s, step), step.w);
    } else if Settles(step) {
      SettlesWasSettled(c, s, step);
      FinishPlaced(s, Apply(c, s, step), step.w);
    } else {
      ControlPlaced(c, s, step);
    }
  }

  lemma ControlPlaced(c: Config, s: State, step: Step)
    requires Placed(s) && Enabled(s, step) && !KeepsTicket(step) && !Settles(step)
    ensures Placed(Apply(c, s, step))
  {
    var s' := Apply(c, s, step);
    match step
    case Start => StartPlaced(s);
    case Submit(failed, skipped, pending, marked, limit) => EnqueuePlaced(s, s', s'.items[|s.items|..]);
    case EnqueueOrphan(docId) => EnqueuePlaced(s, s', [Item(docId, None)]);
    case Cancel => CancelPlaced(s);
    case Dequeue(w) => DequeuePlaced(s, s', w);
  }

  // ---------- batches ----------

  function One(b: bool): int { if b then 1 else 0 }

  /** The slots in use follow the one worker that moves. */
  lemma HoldersAfter(s: State, s': State, w: nat, b: nat)
    requires OnlyWorker(s, s', w) && s'.items == s.items
    ensures |s'.Holders(b)| == |s.Holders(b)| - One(s.SlotOf(w, b)) + One(s'.SlotOf(w, b))
  {
    var others := s.Holders(b) - {w};
    assert forall v | v in s.Holders(b) || v in s'.Holders(b) :: v != w ==> (s.SlotOf(v, b) <==> s'.SlotOf(v, b));
    assert s.Holders(b) == if s.SlotOf(w, b) then others + {w} else others;
    assert s'.Holders(b) == if s'.SlotOf(w, b) then others + {w} else others;
  }

  /** A worker step takes and gives back slots as it enters and leaves the semaphore. */
  ghost predicate SlotsFollow(s: State, s': State, w: nat, b: nat)
    requires b < |s.batches| == |s'.batches|
  {
    s'.batches[b].free == s.batches[b].free + One(s.SlotOf(w, b)) - One(s'.SlotOf(w, b))
  }

  lemma FreeWhenKept(c: Config, s: State, step: Step, b: nat)
    requires Placed(s) && Enabled(s, step) && KeepsTicket(step) && b < |s.batches|
    ensures |Apply(c, s, step).batches| == |s.batches|
    ensures SlotsFollow(s, Apply(c, s, step), step.w, b)
  {
    hide Fire, State.Marked, QueueInv, Accounted;
    assert s.Holding(step.w, s.workers[step.w].t);
  }

  lemma FreeWhenSettled(c: Config, s: State, step: Step, b: nat)
    requires Placed(s) && Enabled(s, step) && Settles(step) && b < |s.batches|
    ensures |Apply(c, s, step).batches| == |s.batches|
    ensures SlotsFollow(s, Apply(c, s, step), step.w, b)
  {
    hide Fire, State.Marked, QueueInv, Accounted;
    assert s.Holding(step.w, s.workers[step.w].t);
  }

  lemma ResultsDespiteSlots(batch: Batch, batch': Batch, mine: set<nat>, settled: set<nat>, items: seq<Item>)
    requires ResultsInv(batch, mine, settled, items) && batch' == batch.(free := batch'.free)
    ensures ResultsInv(batch', mine, settled, items)
  {
  }

  lemma WentOnBatch(c: Config, s: State, step: Step, b: nat)
    requires Enabled(s, step) && KeepsTicket(step) && b < |s.batches| && Placed(s) && BatchInv(s, b)
    ensures b < |Apply(c, s, step).batches| && BatchInv(Apply(c, s, step), b)
  {
    var s' := Apply(c, s, step);
    assert BatchInv(s, b);
    KeepsTicketWentOn(c, s, step);
    FreeWhenKept(c, s, step, b);
    HoldersAfter(s, s', step.w, b);
    assert s'.TicketsOf(b) == s.TicketsOf(b);
    ResultsDespiteSlots(s.batches[b], s'.batches[b], s.TicketsOf(b), s.settled, s.items);
  }

  lemma CountsWithOneMore(batch: Batch, batch': Batch, mine: set<nat>, settled: set<nat>, t: nat, r: DocumentResult)
    requires CountsInv(batch, mine, settled) && t in mine && t !in settled
    requires batch' == batch.(progress := Fire(batch.progress, r), delivered := batch.delivered + [t])
    ensures CountsInv(batch', mine, settled + {t})
  {
    RoomForOneMore(settled, mine, t);
    assert batch.progress.completed < batch.progress.total;
    FireConsistent(batch.progress, r);
    assert (settled + {t}) * mine == settled * mine + {t};
    assert t !in settled * mine;
  }

  /** One more ticket of the batch is settled: its one result is fired. */
  lemma ResultsWithOneMore(batch: Batch, batch': Batch, mine: set<nat>, settled: set<nat>, items: seq<Item>, t: nat,
                           r: DocumentResult)
    requires ResultsInv(batch, mine, settled, items)
    requires t in mine && t !in settled && t < |items| && r.docId == items[t].docId
    requires batch' == batch.(progress := Fire(batch.progress, r), delivered := batch.delivered + [t])
    ensures ResultsInv(batch', mine, settled + {t}, items)
  {
    CountsWithOneMore(batch, batch', mine, settled, t, r);
    DeliveredWithOneMore(batch.delivered, mine, settled, t);
  }

  lemma DeliveredWithOneMore(delivered: seq<nat>, mine: set<nat>, settled: set<nat>, t: nat)
    requires DeliveredInv(delivered, mine, settled) && t in mine && t !in settled
    ensures DeliveredInv(delivered + [t], mine, settled + {t})
  {
    forall i | 0 <= i < |delivered| ensures delivered[i] != t { assert delivered[i] in delivered; }
  }

  lemma RoomForOneMore(settled: set<nat>, mine: set<nat>, t: nat)
    requires t in mine && t !in settled
    ensures |settled * mine| < |mine|
  {
    SubsetSize(settled * mine, mine - {t});
  }

  lemma ResultsOfOthers(batch: Batch, mine: set<nat>, settled: set<nat>, items: seq<Item>, t: nat)
    requires ResultsInv(batch, mine, settled, items) && t !in mine
    ensures ResultsInv(batch, mine, settled + {t}, items)
  {
    assert (settled + {t}) * mine == settled * mine;
  }

  lemma SettledResults(s: State, s': State, w: nat, b: nat, success: bool, skipped: bool)
    requires WasSettled(s, s', w, success, skipped) && b < |s.batches| && Placed(s) && BatchInv(s, b)
    ensures ResultsInv(s'.batches[b], s'.TicketsOf(b), s'.settled, s'.items)
  {
    var t, mine := s.workers[w].t, s.TicketsOf(b);
    var after := BatchAfter(s, b, t, success, skipped);
    assert BatchInv(s, b);
    assert s'.TicketsOf(b) == mine;
    assert s.Holding(w, t);
    if t in mine {
      ResultsWithOneMore(s.batches[b], after, mine, s.settled, s.items, t,
                         DocumentResult(s.items[t].docId, success, skipped));
    } else {
      ResultsOfOthers(s.batches[b], mine, s.settled, s.items, t);
    }
    ResultsDespiteSlots(after, s'.batches[b], mine, s'.settled, s.items);
  }

  lemma SettledBatch(c: Config, s: State, step: Step, b: nat)
    requires Enabled(s, step) && Settles(step) && b < |s.batches| && Placed(s) && BatchInv(s, b)
    ensures b < |Apply(c, s, step).batches| && BatchInv(Apply(c, s, step), b)
  {
    var s' := Apply(c, s, step);
    SettlesWasSettled(c, s, step);
    SettledResults(s, s', step.w, b, step.Processed? || (step.Load? && step.outcome == RowGone),
                   step.Load? && step.outcome == RowGone);
    FreeWhenSettled(c, s, step, b);
    HoldersAfter(s, s', step.w, b);
    assert BatchInv(s, b);
  }

  lemma DequeueBatch(c: Config, s: State, w: nat, b: nat)
    requires Enabled(s, Dequeue(w)) && b < |s.batches| && Placed(s) && BatchInv(s, b)
    ensures BatchInv(Apply(c, s, Dequeue(w)), b)
  {
    assert BatchInv(s, b);
    HoldersAfter(s, Apply(c, s, Dequeue(w)), w, b);
    assert Apply(c, s, Dequeue(w)).TicketsOf(b) == s.TicketsOf(b);
  }

  /** Queueing documents of other batches, or of none. */
  lemma EnqueueBatch(s: State, s': State, b: nat)
    requires b < |s.batches| <= |s'.batches| && s'.batches[b] == s.batches[b] && Placed(s) && BatchInv(s, b)
    requires |s.items| <= |s'.items| && s'.items[..|s.items|] == s.items && s'.workers == s.workers
      && s'.settled == s.settled
    requires forall t | |s.items| <= t < |s'.items| :: s'.items[t].batch != Some(b)
    ensures BatchInv(s', b)
  {
    assert BatchInv(s, b);
    forall t | 0 <= t < |s.items| ensures s'.items[t] == s.items[t] { assert s'.items[..|s.items|][t] == s.items[t]; }
    assert s'.TicketsOf(b) == s.TicketsOf(b);
    forall w | 0 <= w < |s.workers| ensures s'.SlotOf(w, b) <==> s.SlotOf(w, b) {
      if !s.workers[w].Idle? { assert s.Holding(w, s.workers[w].t); }
    }
    assert s'.Holders(b) == s.Holders(b);
  }

  /** Nobody holds a slot of the new batch. */
  lemma SubmittedSlots(s: State, failed: seq<nat>, skipped: seq<nat>, pending: seq<nat>, marked: set<nat>, limit: nat)
    requires Placed(s) && limit >= 1
    ensures |s.batches| < |SubmitBatch(s, failed, skipped, pending, marked, limit).batches|
    ensures SlotsInv(SubmitBatch(s, failed, skipped, pending, marked, limit), |s.batches|)
  {
    hide FireAll, EarlyResults;
    var s', b := SubmitBatch(s, failed, skipped, pending, marked, limit), |s.batches|;
    forall w | 0 <= w < |s.workers| ensures !s'.SlotOf(w, b) {
      if !s.workers[w].Idle? { assert s.Holding(w, s.workers[w].t); }
    }
    assert s'.Holders(b) == {};
  }

  /** Its tickets are the new ones, none of them settled. */
  lemma SubmittedTickets(s: State, failed: seq<nat>, skipped: seq<nat>, pending: seq<nat>, marked: set<nat>, limit: nat)
    requires Placed(s)
    ensures var s', b := SubmitBatch(s, failed, skipped, pending, marked, limit), |s.batches|;
      && |s'.items| == |s.items| + (if pending != [] && !s.running then 0 else |pending|)
      && |s'.TicketsOf(b)| == |s'.items| - |s.items| && s.settled * s'.TicketsOf(b) == {}
  {
    hide FireAll, EarlyResults, HeldInv, QueueInv;
    var s', b := SubmitBatch(s, failed, skipped, pending, marked, limit), |s.batches|;
    var mine := s'.TicketsOf(b);
    var added := |s'.items| - |s.items|;
    forall t ensures t in mine <==> |s.items| <= t < |s.items| + added { }
    IntervalSize(mine, |s.items|, added);
  }

  /** A batch that has delivered nothing but its early results. */
  lemma FreshBatch(batch: Batch, early: seq<DocumentResult>, pending: nat, mine: set<nat>, settled: set<nat>,
                   items: seq<Item>)
    requires batch.progress == FireAll(Started(|early| + pending), early)
    requires batch.early == |early| && batch.delivered == [] && settled * mine == {}
    requires if batch.abandoned then pending > 0 && mine == {} else |mine| == pending
    ensures ResultsInv(batch, mine, settled, items)
  {
    hide FireAll, Started;
    FireAllConsistent(|early| + pending, early);
    NoneInBoth(settled, mine);
  }

  lemma NoneInBoth(a: set<nat>, b: set<nat>)
    requires a * b == {}
    ensures forall t :: !(t in a && t in b)
  {
    assert forall t :: t in a * b <==> t in a && t in b;
  }

  /** The new batch itself. */
  lemma SubmittedBatch(s: State, failed: seq<nat>, skipped: seq<nat>, pending: seq<nat>, marked: set<nat>, limit: nat)
    requires Placed(s) && limit >= 1
    ensures BatchInv(SubmitBatch(s, failed, skipped, pending, marked, limit), |s.batches|)
  {
    SubmittedSlots(s, failed, skipped, pending, marked, limit);
    SubmittedTickets(s, failed, skipped, pending, marked, limit);
    hide Placed, FireAll, EarlyResults, ResultsInv;
    var s', b := SubmitBatch(s, failed, skipped, pending, marked, limit), |s.batches|;
    FreshBatch(s'.batches[b], EarlyResults(failed, skipped), |pending|, s'.TicketsOf(b), s'.settled, s'.items);
  }

  lemma CancelBatch(s: State, b: nat)
    requires b < |s.batches| && Placed(s) && BatchInv(s, b)
    ensures BatchInv(CancelAll(s), b)
  {
    var s' := CancelAll(s);
    assert BatchInv(s, b);
    assert s'.Holders(b) == {};
    assert s'.TicketsOf(b) == s.TicketsOf(b);
    ResultsDespiteSlots(s.batches[b], s'.batches[b], s.TicketsOf(b), s.settled, s.items);
  }

  lemma ControlBatch(c: Config, s: State, step: Step, b: nat)
    requires Inv(s) && Enabled(s, step) && !KeepsTicket(step) && !Settles(step)
    requires b < |Apply(c, s, step).batches|
    ensures BatchInv(Apply(c, s, step), b)
  {
    match step
    case Start => EnqueueBatch(s, s.(running := true), b);
    case Submit(failed, skipped, pending, marked, limit) =>
      if b == |s.batches| { SubmittedBatch(s, failed, skipped, pending, marked, limit); }
      else { EnqueueBatch(s, Apply(c, s, step), b); }
    case EnqueueOrphan(docId) => EnqueueBatch(s, Apply(c, s, step), b);
    case Cancel => CancelBatch(s, b);
    case Dequeue(w) => DequeueBatch(c, s, w, b);
  }

  /** Every step, whatever its external call does, keeps the invariant. */
  lemma StepKeepsInv(c: Config, s: State, step: Step)
    requires Inv(s) && Enabled(s, step)
    ensures Inv(Apply(c, s, step))
  {
    var s' := Apply(c, s, step);
    StepPlaced(c, s, step);
    forall b | 0 <= b < |s'.batches| ensures BatchInv(s', b) {
      if KeepsTicket(step) { KeepsTicketWentOn(c, s, step); WentOnBatch(c, s, step, b); }
      else if Settles(step) { SettlesWasSettled(c, s, step); SettledBatch(c, s, step, b); }
      else { ControlBatch(c, s, step, b); }
    }
  }
}
