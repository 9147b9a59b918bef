/** What a ticket's steps amount to, however they interleave with those of others: the result fired for it is
    the one that the sequential handling fires for the outcomes that its calls had. */
module TicketOutcomes {
  import opened Options
  import opened BatchResults
  import opened PendingProcessor
  import opened PendingProcessorRuns

  /** The step handles ticket t, which a worker has in its hands. */
  predicate Handles(s: State, step: Step, t: nat) {
    IsWorkerStep(step) && !step.Dequeue? && step.w < |s.workers| && s.Holding(step.w, t)
  }

  /** If the step handles ticket t, its outcome is the one in o. */
  predicate Agrees(s: State, step: Step, t: nat, o: Outcomes) {
    Handles(s, step, t) ==> step == NextStep(s, step.w, o)
  }

  // ---------- the promised result ----------

  /** While ticket t of batch b is held, its worker is on the way to the result of o; once it is settled, that is
      the result the callback got. */
  ghost predicate Promised(s: State, b: nat, t: nat, o: Outcomes) {
    t < |s.items| && s.items[t].batch == Some(b) && b < |s.batches| ==>
      && (forall w: nat | s.Holding(w, t) ::
            ResultAt(s.workers[w], s.items[t].docId, o) == ItemResult(s.items[t].docId, o))
      && Recorded(s.batches[b], t, ItemResult(s.items[t].docId, o))
  }

  /** Every result delivered for ticket t is r. */
  ghost predicate Recorded(batch: Batch, t: nat, r: DocumentResult) {
    forall i | 0 <= i < |batch.delivered| && batch.delivered[i] == t ::
      batch.early + i < |batch.progress.calls| && batch.progress.calls[batch.early + i].result == r
  }

  lemma ResultGoesOn(c: Config, s: State, step: Step, o: Outcomes)
    requires Enabled(s, step) && KeepsTicket(step) && step == NextStep(s, step.w, o)
    ensures !Apply(c, s, step).workers[step.w].Idle?
    ensures forall d :: ResultAt(Apply(c, s, step).workers[step.w], d, o) == ResultAt(s.workers[step.w], d, o)
  {
  }

  /** The result that a settling step fires. */
  function FiredBy(step: Step, d: nat): DocumentResult {
    var skipped := step.Load? && step.outcome == RowGone;
    DocumentResult(d, step.Processed? || skipped, skipped)
  }

  lemma ResultIsFired(s: State, step: Step, o: Outcomes)
    requires Enabled(s, step) && Settles(step) && step == NextStep(s, step.w, o)
    ensures forall d :: FiredBy(step, d) == ResultAt(s.workers[step.w], d, o)
  {
  }

  /** A batch that gets one more result keeps those it has. */
  lemma RecordedOneMore(batch: Batch, batch': Batch, u: nat, r': DocumentResult, t: nat, r: DocumentResult)
    requires Recorded(batch, t, r) && |batch.progress.calls| == batch.early + |batch.delivered|
    requires batch'.early == batch.early && batch'.delivered == batch.delivered + [u]
      && batch'.progress == Fire(batch.progress, r')
    requires u == t ==> r' == r
    ensures Recorded(batch', t, r)
  {
  }

  lemma GoingOnKeepsPromise(c: Config, s: State, step: Step, b: nat, t: nat, o: Outcomes)
    requires Placed(s) && Enabled(s, step) && KeepsTicket(step) && Promised(s, b, t, o) && Agrees(s, step, t, o)
    ensures Promised(Apply(c, s, step), b, t, o)
  {
    hide Placed, Apply, Enabled, ItemResult, ResultAt, NextStep;
    KeepsTicketWentOn(c, s, step);
    var s' := Apply(c, s, step);
    if Handles(s, step, t) { ResultGoesOn(c, s, step, o); }
    forall w: nat | s'.Holding(w, t) ensures s.Holding(w, t) { }
  }

  lemma SettlingKeepsPromise(c: Config, s: State, step: Step, b: nat, t: nat, o: Outcomes)
    requires Inv(s) && Enabled(s, step) && Settles(step) && Promised(s, b, t, o) && Agrees(s, step, t, o)
    ensures Promised(Apply(c, s, step), b, t, o)
  {
    hide Placed, Apply, Enabled, ItemResult, ResultAt, NextStep, BatchInv, Recorded;
    SettlesWasSettled(c, s, step);
    var s', u := Apply(c, s, step), s.workers[step.w].t;
    if t < |s.items| && s.items[t].batch == Some(b) && b < |s.batches| {
      var r := ItemResult(s.items[t].docId, o);
      forall w: nat | s'.Holding(w, t) ensures s.Holding(w, t) && s'.workers[w] == s.workers[w] { }
      if Handles(s, step, t) { ResultIsFired(s, step, o); }
      if u < |s.items| && s.items[u].batch == Some(b) {
        OneCallEach(s, b);
        RecordedOneMore(s.batches[b], s'.batches[b].(free := s.batches[b].free), u, FiredBy(step, s.items[u].docId), t,
                        r);
        SameRecord(s'.batches[b], s'.batches[b].(free := s.batches[b].free), t, r);
      } else {
        assert s'.batches[b].(free := 0) == s.batches[b].(free := 0);
        SameRecord(s'.batches[b], s.batches[b], t, r);
      }
    }
  }

  lemma OneCallEach(s: State, b: nat)
    requires Inv(s) && b < |s.batches|
    ensures |s.batches[b].progress.calls| == s.batches[b].early + |s.batches[b].delivered|
  {
    assert BatchInv(s, b);
  }

  lemma SameRecord(batch: Batch, batch': Batch, t: nat, r: DocumentResult)
    requires batch.early == batch'.early && batch.delivered == batch'.delivered && batch.progress == batch'.progress
    ensures Recorded(batch, t, r) <==> Recorded(batch', t, r)
  {
  }

  lemma OthersKeepPromise(c: Config, s: State, step: Step, b: nat, t: nat, o: Outcomes)
    requires Inv(s) && Enabled(s, step) && !KeepsTicket(step) && !Settles(step) && Promised(s, b, t, o)
    ensures Promised(Apply(c, s, step), b, t, o)
  {
    hide Placed, BatchInv, ItemResult, Recorded;
    var s' := Apply(c, s, step);
    if t < |s'.items| && s'.items[t].batch == Some(b) && b < |s'.batches| {
      if t < |s.items| {
        BatchKnown(s, t);
        SameRecord(s'.batches[b], s.batches[b], t, ItemResult(s.items[t].docId, o));
      } else {
        NotHeldYet(s, t);
        assert s'.workers == s.workers;
        forall w: nat ensures !s'.Holding(w, t) { assert !s.Holding(w, t); }
        NothingRecorded(s'.batches[b], t, ItemResult(s'.items[t].docId, o));
      }
    }
  }

  lemma BatchKnown(s: State, t: nat)
    requires Placed(s) && t < |s.items| && s.items[t].batch.Some?
    ensures s.items[t].batch.value < |s.batches|
  {
  }

  lemma NotHeldYet(s: State, t: nat)
    requires Placed(s) && t >= |s.items|
    ensures forall w: nat :: !s.Holding(w, t)
  {
  }

  lemma NothingRecorded(batch: Batch, t: nat, r: DocumentResult)
    requires batch.delivered == []
    ensures Recorded(batch, t, r)
  {
  }

  lemma StepKeepsPromise(c: Config, s: State, step: Step, b: nat, t: nat, o: Outcomes)
    requires Inv(s) && Enabled(s, step) && Promised(s, b, t, o) && Agrees(s, step, t, o)
    ensures Promised(Apply(c, s, step), b, t, o)
  {
    hide Placed, BatchInv, Apply, Enabled, Promised, Agrees;
    if KeepsTicket(step) { GoingOnKeepsPromise(c, s, step, b, t, o); }
    else if Settles(step) { SettlingKeepsPromise(c, s, step, b, t, o); }
    else { OthersKeepPromise(c, s, step, b, t, o); }
  }

  lemma {:induction false} RunKeepsPromise(c: Config, run: seq<State>, steps: seq<Step>, j: nat, b: nat, t: nat,
                                           o: Outcomes)
    requires IsRun(c, run, steps) && j < |run|
    requires forall k | 0 <= k < j :: Agrees(run[k], steps[k], t, o)
    ensures Promised(run[j], b, t, o)
  {
    hide Apply, Enabled, Agrees;
    if j == 0 {
      var workers: nat :| run[0] == Initial(workers);
    } else {
      hide Promised;
      RunKeepsPromise(c, run, steps, j - 1, b, t, o);
      RunKeepsInv(c, run, steps, j - 1);
      assert StepsTo(c, run[j - 1], steps[j - 1], run[j - 1 + 1]);
      StepKeepsPromise(c, run[j - 1], steps[j - 1], b, t, o);
    }
  }

  /** In every run, whatever happens in between, the callback gets for a ticket the result that the sequential
      handling fires for the outcomes that the ticket's own steps had. */
  lemma ResultIsOutcome(c: Config, run: seq<State>, steps: seq<Step>, j: nat, b: nat, t: nat, o: Outcomes, i: nat)
    requires IsRun(c, run, steps) && j < |run| && b < |run[j].batches|
    requires forall k | 0 <= k < j :: Agrees(run[k], steps[k], t, o)
    requires i < |run[j].batches[b].delivered| && run[j].batches[b].delivered[i] == t
    ensures t < |run[j].items| && run[j].batches[b].early + i < |run[j].batches[b].progress.calls|
    ensures run[j].batches[b].progress.calls[run[j].batches[b].early + i].result == ItemResult(run[j].items[t].docId, o)
  {
    hide Agrees, ItemResult, IsRun;
    RunKeepsPromise(c, run, steps, j, b, t, o);
    RunKeepsInv(c, run, steps, j);
    assert BatchInv(run[j], b);
    assert t in run[j].batches[b].delivered;
  }

  // ---------- every ticket's steps have outcomes ----------

  /** Ticket t has been taken from the queue and is past all points of rank r or more. */
  ghost predicate IsPast(s: State, t: nat, r: nat) {
    t < |s.items| && t !in s.queue && forall w: nat | s.Holding(w, t) :: Rank(s.workers[w]) < r
  }

  lemma PastStaysPast(c: Config, s: State, step: Step, t: nat, r: nat)
    requires Placed(s) && Enabled(s, step) && IsPast(s, t, r)
    ensures IsPast(Apply(c, s, step), t, r)
  {
    hide Placed;
    var s' := Apply(c, s, step);
    if KeepsTicket(step) {
      KeepsTicketWentOn(c, s, step);
      GoingOnLowersRank(c, s, step);
    } else if Settles(step) {
      SettlesWasSettled(c, s, step);
    }
    forall w: nat | s'.Holding(w, t) ensures s.Holding(w, t) && Rank(s'.workers[w]) <= Rank(s.workers[w]) {
      if step.Dequeue? { assert s.queue[0] in s.queue; }
    }
    assert t !in s'.queue by { if step.Dequeue? { assert forall q | q in s'.queue :: q in s.queue; } }
  }

  /** Handling t takes it past the point where it was. */
  lemma HandlingPasses(c: Config, s: State, step: Step, t: nat)
    requires Placed(s) && Enabled(s, step) && Handles(s, step, t)
    ensures IsPast(Apply(c, s, step), t, Rank(s.workers[step.w]))
  {
    var s' := Apply(c, s, step);
    assert s.Holding(step.w, t);
    if KeepsTicket(step) {
      KeepsTicketWentOn(c, s, step);
      GoingOnLowersRank(c, s, step);
    } else {
      SettlesWasSettled(c, s, step);
    }
    forall v: nat | s'.Holding(v, t) ensures v == step.w { assert v != step.w ==> s.Holding(v, t); }
  }

  /** o with the outcome of a step. */
  function Noted(o: Outcomes, step: Step): Outcomes {
    match step
    case Load(_, outcome) => o.(load := outcome)
    case ResolveEngine(_, raises, supported) => o.(engineRaises := raises, supported := supported)
    case ResolveParameters(_, raises) => o.(preTryRaises := raises)
    case Processed(_, raises, handlerRaises) =>
      o.(processRaises := raises, usageRaises := false, handlerRaises := handlerRaises)
    case _ => o
  }

  lemma NotedAgrees(s: State, step: Step, t: nat, o: Outcomes)
    requires Enabled(s, step) && Handles(s, step, t)
    ensures Agrees(s, step, t, Noted(o, step))
  {
  }

  /** What is noted at a later point does not touch what was noted before. */
  lemma EarlierStillAgrees(s: State, step: Step, t: nat, o: Outcomes, s': State, step': Step)
    requires Agrees(s, step, t, o) && Enabled(s', step') && Handles(s', step', t)
    requires Handles(s, step, t) ==> Rank(s'.workers[step'.w]) < Rank(s.workers[step.w])
    ensures Agrees(s, step, t, Noted(o, step'))
  {
  }

  lemma {:induction false} StillPast(c: Config, run: seq<State>, steps: seq<Step>, k: nat, j: nat, t: nat)
    requires IsRun(c, run, steps) && k < j < |run| && Handles(run[k], steps[k], t)
    ensures IsPast(run[j], t, Rank(run[k].workers[steps[k].w]))
    decreases j
  {
    hide Apply, Enabled, Handles, IsPast, Placed, Rank;
    HandlerKnown(run[k], steps[k], t);
    RunKeepsInv(c, run, steps, j - 1);
    assert StepsTo(c, run[j - 1], steps[j - 1], run[j - 1 + 1]);
    if k == j - 1 {
      HandlingPasses(c, run[k], steps[k], t);
    } else {
      StillPast(c, run, steps, k, j - 1, t);
      PastStaysPast(c, run[j - 1], steps[j - 1], t, Rank(run[k].workers[steps[k].w]));
    }
  }

  lemma HandlerKnown(s: State, step: Step, t: nat)
    requires Handles(s, step, t)
    ensures IsWorkerStep(step) && step.w < |s.workers|
  {
  }

  /** In every run the steps of a ticket have outcomes: no point is passed twice. */
  lemma {:induction false} OutcomesExist(c: Config, run: seq<State>, steps: seq<Step>, j: nat, t: nat)
    returns (o: Outcomes)
    requires IsRun(c, run, steps) && j < |run|
    ensures forall k | 0 <= k < j :: Agrees(run[k], steps[k], t, o)
  {
    hide Apply, Enabled, Agrees, IsPast, Rank, Noted;
    if j == 0 {
      o := Outcomes(Row, false, true, false, false, false, false, false, false, false, []);
    } else {
      o := OutcomesExist(c, run, steps, j - 1, t);
      var s, step := run[j - 1], steps[j - 1];
      assert StepsTo(c, run[j - 1], steps[j - 1], run[j - 1 + 1]);
      if Handles(s, step, t) {
        var o' := Noted(o, step);
        NotedAgrees(s, step, t, o);
        forall k | 0 <= k < j - 1 ensures Agrees(run[k], steps[k], t, o') {
          if Handles(run[k], steps[k], t) {
            StillPast(c, run, steps, k, j - 1, t);
            PastIsLower(s, step, t, Rank(run[k].workers[steps[k].w]));
          }
          EarlierStillAgrees(run[k], steps[k], t, o, s, step);
        }
        o := o';
      } else {
        NotHandledAgrees(s, step, t, o);
      }
    }
  }

  lemma PastIsLower(s: State, step: Step, t: nat, r: nat)
    requires IsPast(s, t, r) && Handles(s, step, t)
    ensures Rank(s.workers[step.w]) < r
  {
  }

  lemma NotHandledAgrees(s: State, step: Step, t: nat, o: Outcomes)
    requires !Handles(s, step, t)
    ensures Agrees(s, step, t, o)
  {
  }

  // ---------- the engine calls of a ticket ----------

  /** The engine calls made for ticket t so far, in order. */
  ghost function CallsOf(trace: seq<Event>, t: nat): seq<EngineCall> {
    if trace == [] then []
    else CallsOf(trace[..|trace| - 1], t) + if trace[|trace| - 1].t == t then [trace[|trace| - 1].call] else []
  }

  /** The calls still to come from a worker at pc. */
  function CallsAhead(c: Config, pc: Pc, marked: bool, o: Outcomes): seq<EngineCall> {
    var last := if o.preTryRaises then [] else [Process];
    match pc
    case Loading(_) => ItemCalls(marked, c.hasVectorStore, c.hasClear, o)
    case AwaitingSlot(_) => CallsMade(marked, c.hasVectorStore, c.hasClear, o)
    case Preparing(_) => CallsMade(marked, c.hasVectorStore, c.hasClear, o)
    case ClearingChunks(_) => [ClearChunks] + (if c.hasClear then [ClearState] else []) + last
    case ClearingState(_) => [ClearState] + last
    case Resolving(_) => last
    case _ => []
  }

  /** While ticket t is held, the calls made and those to come are those of o; once it is settled all are made. */
  ghost predicate CallsPromised(c: Config, s: State, t: nat, o: Outcomes) {
    var all := ItemCalls(s.Marked(t), c.hasVectorStore, c.hasClear, o);
    && (t in s.queue || t >= |s.items| ==> CallsOf(s.trace, t) == [])
    && (forall w: nat | s.Holding(w, t) :: CallsOf(s.trace, t) + CallsAhead(c, s.workers[w], s.Marked(t), o) == all)
    && (t in s.settled ==> CallsOf(s.trace, t) == all)
  }

  /** The call that a step makes for its worker's ticket, if any. */
  function CallBy(step: Step): Option<EngineCall> {
    match step
    case ChunksCleared(_) => Some(ClearChunks)
    case StateCleared(_) => Some(ClearState)
    case ResolveParameters(_, raises) => if raises then None else Some(Process)
    case _ => None
  }

  lemma TraceAfter(c: Config, s: State, step: Step)
    requires Enabled(s, step)
    ensures CallBy(step) == None ==> Apply(c, s, step).trace == s.trace
    ensures CallBy(step).Some? ==> Apply(c, s, step).trace == s.trace + [Event(s.workers[step.w].t, CallBy(step).value)]
  {
  }

  lemma CallsAfter(c: Config, s: State, step: Step, t: nat)
    requires Enabled(s, step)
    ensures CallsOf(Apply(c, s, step).trace, t) == CallsOf(s.trace, t) +
      if CallBy(step).Some? && s.workers[step.w].t == t then [CallBy(step).value] else []
  {
    hide Apply;
    TraceAfter(c, s, step);
    if CallBy(step).Some? {
      var e := Event(s.workers[step.w].t, CallBy(step).value);
      assert (s.trace + [e])[..|s.trace|] == s.trace;
    }
  }

  /** Of the calls to come, the step makes the next, if it makes one. */
  ghost predicate CallsMove(c: Config, s: State, step: Step, t: nat, o: Outcomes, s': State)
    requires Handles(s, step, t) && step.w < |s'.workers|
  {
    var pc, marked := s'.workers[step.w], s.Marked(t);
    CallsAhead(c, s.workers[step.w], marked, o) ==
      (if CallBy(step).Some? then [CallBy(step).value] else []) + if pc.Idle? then [] else CallsAhead(c, pc, marked, o)
  }

  lemma CallsGoOn(c: Config, s: State, step: Step, t: nat, o: Outcomes)
    requires Enabled(s, step) && Handles(s, step, t) && step == NextStep(s, step.w, o)
    ensures step.w < |Apply(c, s, step).workers| && CallsMove(c, s, step, t, o, Apply(c, s, step))
  {
    if IsEarly(s.workers[step.w]) { EarlyCalls(c, s, step, t, o); }
    else if IsMiddle(s.workers[step.w]) { MiddleCalls(c, s, step, t, o); }
    else { LateCalls(c, s, step, t, o); }
  }

  lemma EarlyCalls(c: Config, s: State, step: Step, t: nat, o: Outcomes)
    requires Enabled(s, step) && Handles(s, step, t) && step == NextStep(s, step.w, o) && IsEarly(s.workers[step.w])
    ensures step.w < |Apply(c, s, step).workers| && CallsMove(c, s, step, t, o, Apply(c, s, step))
  {
    hide Fire, FireAll;
  }

  lemma MiddleCalls(c: Config, s: State, step: Step, t: nat, o: Outcomes)
    requires Enabled(s, step) && Handles(s, step, t) && step == NextStep(s, step.w, o) && IsMiddle(s.workers[step.w])
    ensures step.w < |Apply(c, s, step).workers| && CallsMove(c, s, step, t, o, Apply(c, s, step))
  {
    hide Fire, FireAll;
  }

  lemma LateCalls(c: Config, s: State, step: Step, t: nat, o: Outcomes)
    requires Enabled(s, step) && Handles(s, step, t) && step == NextStep(s, step.w, o)
    requires !IsEarly(s.workers[step.w]) && !IsMiddle(s.workers[step.w])
    ensures step.w < |Apply(c, s, step).workers| && CallsMove(c, s, step, t, o, Apply(c, s, step))
  {
    hide Fire, FireAll;
  }

  lemma HeldTicket(s: State, w: nat, t: nat)
    requires Placed(s) && s.Holding(w, t)
    ensures t < |s.items| && t !in s.queue && t !in s.settled
    ensures forall v: nat | s.Holding(v, t) :: v == w
  {
  }

  /** How the calls move as a sum. */
  lemma CallsAddUp(c: Config, s: State, step: Step, t: nat, o: Outcomes, s': State, all: seq<EngineCall>)
    requires Handles(s, step, t) && step.w < |s'.workers| && CallsMove(c, s, step, t, o, s')
    requires CallsOf(s.trace, t) + CallsAhead(c, s.workers[step.w], s.Marked(t), o) == all
    requires CallsOf(s'.trace, t) == CallsOf(s.trace, t) + if CallBy(step).Some? then [CallBy(step).value] else []
    ensures CallsOf(s'.trace, t)
      + (if s'.workers[step.w].Idle? then [] else CallsAhead(c, s'.workers[step.w], s.Marked(t), o)) == all
  {
    hide CallsOf, CallsAhead, NextStep, CallBy;
  }

  lemma HandlingKeepsCalls(c: Config, s: State, step: Step, t: nat, o: Outcomes)
    requires Placed(s) && Enabled(s, step) && Handles(s, step, t) && step == NextStep(s, step.w, o)
      && CallsPromised(c, s, t, o)
    ensures CallsPromised(c, Apply(c, s, step), t, o)
  {
    hide Apply, Enabled, CallsAhead, ItemCalls, State.Marked, NextStep, Placed, CallsMove;
    var s' := Apply(c, s, step);
    HeldTicket(s, step.w, t);
    CallsGoOn(c, s, step, t, o);
    CallsAfter(c, s, step, t);
    MarkedStays(c, s, step, t);
    if KeepsTicket(step) { KeepsTicketWentOn(c, s, step); } else { SettlesWasSettled(c, s, step); }
    forall v: nat | s'.Holding(v, t) ensures v == step.w { assert v != step.w ==> s.Holding(v, t); }
    CallsAddUp(c, s, step, t, o, s', ItemCalls(s.Marked(t), c.hasVectorStore, c.hasClear, o));
  }

  lemma OthersKeepCalls(c: Config, s: State, step: Step, t: nat, o: Outcomes)
    requires Placed(s) && Enabled(s, step) && !Handles(s, step, t) && CallsPromised(c, s, t, o)
    ensures CallsPromised(c, Apply(c, s, step), t, o)
  {
    hide Apply, Enabled, CallsAhead, ItemCalls, State.Marked, Placed;
    var s' := Apply(c, s, step);
    CallsAfter(c, s, step, t);
    NotItsCall(c, s, step, t);
    if t < |s.items| {
      MarkedStays(c, s, step, t);
      ItemsGrow(c, s, step);
      WhereFrom(c, s, step, t);
      DequeuedCalls(c, s, step, t, o);
    } else {
      NewTicket(c, s, step, t);
    }
  }

  lemma NotItsCall(c: Config, s: State, step: Step, t: nat)
    requires Enabled(s, step) && !Handles(s, step, t)
    ensures !(CallBy(step).Some? && s.workers[step.w].t == t)
  {
  }

  /** Where a ticket that is not handled was before the step. */
  lemma WhereFrom(c: Config, s: State, step: Step, t: nat)
    requires Placed(s) && Enabled(s, step) && !Handles(s, step, t) && t < |s.items|
    ensures t in Apply(c, s, step).queue ==> t in s.queue
    ensures t in Apply(c, s, step).settled ==> t in s.settled
    ensures forall w: nat | Apply(c, s, step).Holding(w, t) ::
      (s.Holding(w, t) && Apply(c, s, step).workers[w] == s.workers[w])
      || (t in s.queue && Apply(c, s, step).workers[w] == Loading(t))
  {
    var s' := Apply(c, s, step);
    if KeepsTicket(step) { KeepsTicketWentOn(c, s, step); }
    else if Settles(step) { SettlesWasSettled(c, s, step); }
    if step.Dequeue? { assert forall q | q in s'.queue :: q in s.queue; assert s.queue[0] in s.queue; }
  }

  lemma DequeuedCalls(c: Config, s: State, step: Step, t: nat, o: Outcomes)
    ensures CallsAhead(c, Loading(t), s.Marked(t), o) == ItemCalls(s.Marked(t), c.hasVectorStore, c.hasClear, o)
  {
  }

  lemma NewTicket(c: Config, s: State, step: Step, t: nat)
    requires Placed(s) && Enabled(s, step) && t >= |s.items|
    ensures t !in Apply(c, s, step).settled && forall w: nat :: !Apply(c, s, step).Holding(w, t)
  {
    hide Placed, Fire, FireAll, EarlyResults, State.Marked;
    var s' := Apply(c, s, step);
    NotHeldYet(s, t);
    TicketsInUse(s);
    if KeepsTicket(step) { KeepsTicketWentOn(c, s, step); }
    else if Settles(step) { SettlesWasSettled(c, s, step); assert s.Holding(step.w, s.workers[step.w].t); }
    else if step.Dequeue? { assert s.queue[0] in s.queue; }
    forall w: nat ensures !s'.Holding(w, t) { assert !s.Holding(w, t); }
  }

  lemma TicketsInUse(s: State)
    requires Placed(s)
    ensures forall t | t in s.queue || t in s.settled :: t < |s.items|
  {
  }

  lemma {:induction false} RunKeepsCalls(c: Config, run: seq<State>, steps: seq<Step>, j: nat, t: nat, o: Outcomes)
    requires IsRun(c, run, steps) && j < |run|
    requires forall k | 0 <= k < j :: Agrees(run[k], steps[k], t, o)
    ensures CallsPromised(c, run[j], t, o)
  {
    hide Apply, Enabled, Handles, NextStep;
    if j == 0 {
      var workers: nat :| run[0] == Initial(workers);
    } else {
      hide CallsPromised;
      RunKeepsCalls(c, run, steps, j - 1, t, o);
      RunKeepsInv(c, run, steps, j - 1);
      assert StepsTo(c, run[j - 1], steps[j - 1], run[j - 1 + 1]);
      if Handles(run[j - 1], steps[j - 1], t) { HandlingKeepsCalls(c, run[j - 1], steps[j - 1], t, o); }
      else { OthersKeepCalls(c, run[j - 1], steps[j - 1], t, o); }
    }
  }

  /** In every run, the engine calls made for a settled ticket are those of the sequential handling, in order. */
  lemma CallsAreOutcomes(c: Config, run: seq<State>, steps: seq<Step>, j: nat, t: nat, o: Outcomes)
    requires IsRun(c, run, steps) && j < |run| && t in run[j].settled
    requires forall k | 0 <= k < j :: Agrees(run[k], steps[k], t, o)
    ensures CallsOf(run[j].trace, t) == ItemCalls(run[j].Marked(t), c.hasVectorStore, c.hasClear, o)
  {
    hide Agrees, IsRun, ItemCalls;
    RunKeepsCalls(c, run, steps, j, t, o);
  }
}
