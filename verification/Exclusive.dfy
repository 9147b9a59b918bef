/** One document in one worker's hands: exactly when no document is queued or worked on twice at a time, and when
    a submission does not reset the row of a document that is being worked on. */
module Exclusive {
  import opened Options
  import opened BatchResults
  import opened PendingProcessor
  import opened PendingProcessorRuns
  import opened Submission
  import opened Histories

  /** Ticket t is queued or held. */
  ghost predicate Live(s: State, t: nat) { t < |s.items| && (t in s.queue || s.Held(t)) }

  /** Document d has a ticket that is queued or held. */
  ghost predicate Busy(s: State, d: nat) { exists t: nat :: Live(s, t) && s.items[t].docId == d }

  /** No document has two such tickets. */
  ghost predicate OneTicketEach(s: State) {
    forall t: nat, u: nat | Live(s, t) && Live(s, u) && s.items[t].docId == s.items[u].docId :: t == u
  }

  /** The move queues document d. */
  ghost predicate Queues(world: World, m: Move, d: nat) {
    match m
    case Registered(x, _) => world.core.running && IsOpen(world, x) && d in DocsWith(world.open[x].r, Queued)
    case Claimed(x) => x == d
    case _ => false
  }

  /** It queues a document that has a ticket already. */
  ghost predicate QueuesBusy(world: World, m: Move) {
    exists d :: Queues(world, m, d) && Busy(world.core, d)
  }

  // ---------- what a step makes of the tickets ----------

  /** A step adds its documents as the next tickets, in order, and puts them into the queue. */
  ghost predicate Adds(s: State, s': State, docs: seq<nat>) {
    && |s'.items| == |s.items| + |docs| && (forall t | 0 <= t < |s.items| :: s'.items[t] == s.items[t])
    && (forall t | |s.items| <= t < |s'.items| :: s'.items[t].docId == docs[t - |s.items|] && t in s'.queue)
  }

  /** The documents that a step queues. */
  ghost function QueuedBy(s: State, step: Step): seq<nat> {
    match step
    case Submit(_, _, pending, _, _) => if s.running then pending else []
    case EnqueueOrphan(d) => [d]
    case _ => []
  }

  lemma StepAdds(c: Config, s: State, step: Step)
    requires Enabled(s, step)
    ensures Adds(s, Apply(c, s, step), QueuedBy(s, step))
  {
    hide Fire, FireAll, EarlyResults;
    if step.Submit? || step.EnqueueOrphan? {
      var s', docs := Apply(c, s, step), QueuedBy(s, step);
      forall t | |s.items| <= t < |s'.items|
        ensures t in s'.queue
      {
        assert s'.queue[|s.queue| + (t - |s.items|)] == t;
      }
    }
  }

  /** An old ticket is live after a step only if it was before. */
  lemma OldTickets(c: Config, s: State, step: Step, t: nat)
    requires Placed(s) && Enabled(s, step) && t < |s.items| && Live(Apply(c, s, step), t)
    ensures Live(s, t)
  {
    hide Fire, FireAll, EarlyResults, State.Marked;
    var s' := Apply(c, s, step);
    if KeepsTicket(step) { KeepsTicketWentOn(c, s, step); }
    else if Settles(step) { SettlesWasSettled(c, s, step); }
    if t in s'.queue {
      assert t in s.queue;
    } else {
      var w :| s'.Holding(w, t);
      if step.Dequeue? && step.w == w { assert s.queue[0] in s.queue; } else { assert s.Holding(w, t); }
    }
  }

  /** Arrivals leave every ticket as live as it was. */
  lemma ArrivalKeepsLive(c: Config, s: State, step: Step, t: nat)
    requires Enabled(s, step) && (step.Submit? || step.EnqueueOrphan?) && Live(s, t)
    ensures Live(Apply(c, s, step), t)
  {
    hide Fire, FireAll, EarlyResults, State.Marked;
    var s' := Apply(c, s, step);
    if t in s.queue {
      var i :| 0 <= i < |s.queue| && s.queue[i] == t;
      assert s'.queue[i] == t;
    } else {
      var w :| s.Holding(w, t);
      assert s'.Holding(w, t);
    }
  }

  /** A live ticket was live before the step, or is for a document that the step queued. */
  lemma WhereFrom(c: Config, s: State, step: Step, t: nat)
    requires Placed(s) && Enabled(s, step) && Live(Apply(c, s, step), t)
    ensures t < |s.items| ==> Live(s, t) && Apply(c, s, step).items[t] == s.items[t]
    ensures t >= |s.items| ==> t - |s.items| < |QueuedBy(s, step)|
    ensures t >= |s.items| ==> Apply(c, s, step).items[t].docId == QueuedBy(s, step)[t - |s.items|]
    ensures t >= |s.items| ==> Apply(c, s, step).items[t].docId in QueuedBy(s, step)
  {
    hide Apply, Enabled, QueuedBy, Placed, State.Held;
    StepAdds(c, s, step);
    if t < |s.items| { OldTickets(c, s, step, t); }
  }

  lemma StepKeepsOneTicket(c: Config, s: State, step: Step)
    requires Placed(s) && OneTicketEach(s) && Enabled(s, step)
    requires forall d | d in QueuedBy(s, step) :: !Busy(s, d)
    requires forall i, j | 0 <= i < j < |QueuedBy(s, step)| :: QueuedBy(s, step)[i] != QueuedBy(s, step)[j]
    ensures OneTicketEach(Apply(c, s, step))
  {
    hide Apply, Enabled, QueuedBy, Placed, State.Held;
    var s', docs := Apply(c, s, step), QueuedBy(s, step);
    forall t: nat, u: nat | Live(s', t) && Live(s', u) ensures s'.items[t].docId == s'.items[u].docId ==> t == u {
      WhereFrom(c, s, step, t);
      WhereFrom(c, s, step, u);
      assert t < |s.items| ==> Busy(s, s'.items[t].docId);
      assert u < |s.items| ==> Busy(s, s'.items[u].docId);
    }
  }

  /** Queueing a busy document gives it a second ticket. */
  lemma SecondTicket(c: Config, s: State, step: Step, d: nat)
    requires Placed(s) && Enabled(s, step) && d in QueuedBy(s, step) && Busy(s, d)
    ensures !OneTicketEach(Apply(c, s, step))
  {
    hide Apply, Enabled, Placed;
    var s', docs := Apply(c, s, step), QueuedBy(s, step);
    StepAdds(c, s, step);
    var t: nat :| Live(s, t) && s.items[t].docId == d;
    ArrivalKeepsLive(c, s, step, t);
    var k :| 0 <= k < |docs| && docs[k] == d;
    assert Live(s', |s.items| + k);
  }

  // ---------- histories ----------

  lemma MoveQueues(world: World, m: Move, d: nat)
    requires CanMove(world, m)
    ensures Queues(world, m, d) <==> StepOf(world, m).Some? && d in QueuedBy(world.core, StepOf(world, m).value)
  {
    hide DocsWith;
  }

  lemma QueuedByOnce(c: Config, world: World, m: Move)
    requires WorldInv(c, world) && CanMove(world, m) && StepOf(world, m).Some?
    ensures var docs := QueuedBy(world.core, StepOf(world, m).value);
      forall i, j | 0 <= i < j < |docs| :: docs[i] != docs[j]
  {
    hide Inv, TraceInv, ClearsMarked, DocsWith;
  }

  lemma MoveKeepsOneTicket(c: Config, world: World, m: Move)
    requires WorldInv(c, world) && CanMove(world, m) && OneTicketEach(world.core) && !QueuesBusy(world, m)
    ensures OneTicketEach(Moved(c, world, m).core)
  {
    hide Moved, Apply, Queues, QueuedBy, Busy, OneTicketEach, TraceInv, ClearsMarked, BatchInv;
    CoreMoves(c, world, m);
    if StepOf(world, m).Some? {
      forall d
        ensures d in QueuedBy(world.core, StepOf(world, m).value) ==> !Busy(world.core, d)
      {
        MoveQueues(world, m, d);
      }
      QueuedByOnce(c, world, m);
      StepKeepsOneTicket(c, world.core, StepOf(world, m).value);
    }
  }

  lemma BusyQueuedTwice(c: Config, world: World, m: Move)
    requires WorldInv(c, world) && CanMove(world, m) && QueuesBusy(world, m)
    ensures !OneTicketEach(Moved(c, world, m).core)
  {
    hide Moved, Apply, Queues, QueuedBy, Busy, OneTicketEach, TraceInv, ClearsMarked, BatchInv;
    var d :| Queues(world, m, d) && Busy(world.core, d);
    CoreMoves(c, world, m);
    MoveQueues(world, m, d);
    SecondTicket(c, world.core, StepOf(world, m).value, d);
  }

  lemma {:induction false} HistoryKeepsOneTicket(c: Config, run: seq<World>, moves: seq<Move>, j: nat)
    requires IsHistory(c, run, moves) && j < |run|
    requires forall k | 0 <= k < j :: !QueuesBusy(run[k], moves[k])
    ensures OneTicketEach(run[j].core)
  {
    if j == 0 {
      var workers: nat :| run[0].core == Initial(workers);
    } else {
      hide Moved, CanMove, OneTicketEach, QueuesBusy, WorldInv;
      HistoryKeepsOneTicket(c, run, moves, j - 1);
      HistoryKeepsInv(c, run, moves, j - 1);
      assert MovesTo(c, run[j - 1], moves[j - 1], run[j - 1 + 1]);
      MoveKeepsOneTicket(c, run[j - 1], moves[j - 1]);
    }
  }

  /** Throughout a history no document has two tickets queued or held, exactly if no submission is registered with,
      and no claim is made of, a document that has one. */
  lemma OneTicketExactly(c: Config, run: seq<World>, moves: seq<Move>)
    requires IsHistory(c, run, moves)
    ensures (forall j | 0 <= j < |run| :: OneTicketEach(run[j].core))
            <==> (forall j | 0 <= j < |moves| :: !QueuesBusy(run[j], moves[j]))
  {
    hide Moved, CanMove, OneTicketEach, QueuesBusy, WorldInv;
    if forall j | 0 <= j < |run| :: OneTicketEach(run[j].core) {
      forall j | 0 <= j < |moves| ensures !QueuesBusy(run[j], moves[j]) {
        assert MovesTo(c, run[j], moves[j], run[j + 1]) && OneTicketEach(run[j + 1].core);
        HistoryKeepsInv(c, run, moves, j);
        if QueuesBusy(run[j], moves[j]) { BusyQueuedTwice(c, run[j], moves[j]); }
      }
    }
    if forall j | 0 <= j < |moves| :: !QueuesBusy(run[j], moves[j]) {
      forall j | 0 <= j < |run| ensures OneTicketEach(run[j].core) { HistoryKeepsOneTicket(c, run, moves, j); }
    }
  }

  /** And then no two workers have the same document in their hands. */
  lemma NoSharedDocument(s: State, v: nat, w: nat)
    requires Inv(s) && OneTicketEach(s) && v < |s.workers| && w < |s.workers|
    requires !s.workers[v].Idle? && !s.workers[w].Idle? && DocAt(s, v) == DocAt(s, w)
    ensures v == w
  {
    hide BatchInv;
    var t, u := s.workers[v].t, s.workers[w].t;
    assert s.Holding(v, t) && s.Holding(w, u);
    assert Live(s, t) && Live(s, u);
  }

  // ---------- rows that are reset ----------

  /** The row of d, if it is there, is as it was found or PENDING. */
  ghost predicate StillAs(world: World, d: nat, status: Status) {
    !Busy(world.core, d) && (d in world.rows ==> world.rows[d].status in {status, PENDING})
  }

  lemma MoveKeepsStatus(c: Config, world: World, m: Move, d: nat, status: Status)
    requires WorldInv(c, world) && CanMove(world, m) && !Queues(world, m, d)
    requires StillAs(world, d, status) && status !in {COMPLETED, PROCESSING}
    ensures StillAs(Moved(c, world, m), d, status)
  {
    hide Moved, Apply, DocsWith, Busy, TraceInv, ClearsMarked, BatchInv, QueuesOnce;
    if d in Moved(c, world, m).rows { StatusWritten(c, world, m, d); }
    if m.EngineWrote? { HolderIsBusy(world.core, m.w); }
    if m.Processor? && m.step.StatusUpdated? { HolderIsBusy(world.core, m.step.w); }
    CoreMoves(c, world, m);
    if StepOf(world, m).Some? { NotBusyYet(c, world.core, StepOf(world, m).value, d, world, m); }
  }

  /** Who writes the status of a row. */
  lemma StatusWritten(c: Config, world: World, m: Move, d: nat)
    requires CanMove(world, m) && d in Moved(c, world, m).rows
    ensures
      || (d in world.rows && Moved(c, world, m).rows[d].status == world.rows[d].status)
      || (m.Wrote? && Moved(c, world, m).rows[d].status == PENDING)
      || (m.Claimed? && m.docId == d)
        || (m.Archived? && m.docId == d && d in world.rows && world.rows[d].status == COMPLETED)
      || (m.EngineWrote? && DocAt(world.core, m.w) == d)
      || (m.Processor? && m.step.StatusUpdated? && DocAt(world.core, m.step.w) == d)
  {
    hide Apply, Request.Fate;
  }

  lemma HolderIsBusy(s: State, w: nat)
    requires Placed(s) && w < |s.workers| && !s.workers[w].Idle?
    ensures Busy(s, DocAt(s, w))
  {
    assert s.Holding(w, s.workers[w].t);
    assert Live(s, s.workers[w].t);
  }

  lemma NotBusyYet(c: Config, s: State, step: Step, d: nat, world: World, m: Move)
    requires Placed(s) && Enabled(s, step) && !Busy(s, d)
    requires CanMove(world, m) && world.core == s && StepOf(world, m) == Some(step) && !Queues(world, m, d)
    ensures !Busy(Apply(c, s, step), d)
  {
    hide Apply, Enabled, QueuedBy, Placed, State.Held, Queues;
    MoveQueues(world, m, d);
    var s' := Apply(c, s, step);
    forall t: nat | Live(s', t) ensures s'.items[t].docId != d { WhereFrom(c, s, step, t); }
  }

  lemma {:induction false} HistoryKeepsStatus(c: Config, run: seq<World>, moves: seq<Move>, i: nat, j: nat, d: nat,
                                              status: Status)
    requires IsHistory(c, run, moves) && i <= j < |run|
    requires StillAs(run[i], d, status) && status !in {COMPLETED, PROCESSING}
    requires forall m | i <= m < j :: !Queues(run[m], moves[m], d)
    ensures StillAs(run[j], d, status)
    decreases j
  {
    hide Moved, CanMove, StillAs, Queues, WorldInv;
    if i < j {
      HistoryKeepsStatus(c, run, moves, i, j - 1, d, status);
      HistoryKeepsInv(c, run, moves, j - 1);
      assert MovesTo(c, run[j - 1], moves[j - 1], run[j - 1 + 1]);
      MoveKeepsStatus(c, run[j - 1], moves[j - 1], d, status);
    }
  }

  /** A lookup at move i, and the write at move j by which the submission takes document d for itself again. If d has
      no ticket queued or held at the lookup and gets none before the write, then not only the looked-up row but
      the row that is overwritten is neither PROCESSING nor COMPLETED, and ARCHIVED only if that is wanted. */
  lemma NeverResetsWorkedOn(c: Config, run: seq<World>, moves: seq<Move>, i: nat, j: nat, d: nat)
    requires IsHistory(c, run, moves) && i < j < |moves| && moves[i].LookedUp?
    requires Writes(run[j], moves[j], d) && moves[j].x == |run[i].open| && d in run[i].rows && d in run[j].rows
    requires !Busy(run[i].core, d) && forall m | i <= m < j :: !Queues(run[m], moves[m], d)
    ensures run[j].rows[d].status in {run[i].rows[d].status, PENDING}
      && run[j].rows[d].status !in {PROCESSING, COMPLETED}
    ensures run[j].rows[d].status == ARCHIVED ==> moves[i].r.reprocessArchived
  {
    hide Busy, Queues, Moved;
    assert MovesTo(c, run[i], moves[i], run[i + 1]);
    LookupStays(c, run, moves, i, j);
    FoundNotLeftAlone(run[i], moves[i].r, run[j].open[moves[j].x].next, d);
    HistoryKeepsStatus(c, run, moves, i, j, d, run[i].rows[d].status);
  }

  lemma LookupStays(c: Config, run: seq<World>, moves: seq<Move>, i: nat, j: nat)
    requires IsHistory(c, run, moves) && i < j < |run| && moves[i].LookedUp?
    ensures |run[i].open| < |run[j].open| && run[j].open[|run[i].open|].r == moves[i].r
  {
    assert MovesTo(c, run[i], moves[i], run[i + 1]);
    HistoryKeepsOpen(c, run, moves, i + 1, j, |run[i].open|);
  }

  lemma FoundNotLeftAlone(world: World, r: Request, n: nat, d: nat)
    requires CanMove(world, LookedUp(r)) && n < |r.inputs| && r.Fate(n) == Queued && DocOf(r, n) == d && d in world.rows
    ensures world.rows[d].status !in {COMPLETED, PROCESSING}
      && (world.rows[d].status == ARCHIVED ==> r.reprocessArchived)
  {
  }
}
