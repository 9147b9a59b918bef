/** What earlier attempts left behind of a document, and exactly when it is still there when the document is
    processed again. */
module Leftovers {
  import opened Options
  import opened BatchResults
  import opened PendingProcessor
  import opened PendingProcessorRuns
  import opened Submission
  import opened Histories

  /** The clearing call that a processor step completes, if any. */
  function ClearingOf(step: Step): Option<EngineCall> {
    match step
    case ChunksCleared(_) => Some(ClearChunks)
    case StateCleared(_) => Some(ClearState)
    case _ => None
  }

  /** The move is a clearing call for ticket t. It may have raised, which the worker drops. */
  predicate Calls(world: World, m: Move, t: nat, call: EngineCall) {
    && m.Processor? && ClearingOf(m.step) == Some(call)
    && m.step.w < |world.core.workers| && !world.core.workers[m.step.w].Idle? && world.core.workers[m.step.w].t == t
  }

  /** The move is a clearing call for document d, for whatever ticket, and it returned. */
  predicate Clears(world: World, m: Move, d: nat, call: EngineCall) {
    m.Processor? && ClearingOf(m.step) == Some(call) && !m.raises && DocAt(world.core, m.step.w) == d
  }

  /** Some move from a up to, not including, k cleared document d. */
  ghost predicate Cleared(run: seq<World>, moves: seq<Move>, a: nat, k: nat, d: nat, call: EngineCall)
    requires k <= |moves| <= |run|
  {
    exists j :: a <= j < k && Clears(run[j], moves[j], d, call)
  }

  /** Some move from a up to, not including, k called the engine to clear for ticket t. */
  ghost predicate Called(run: seq<World>, moves: seq<Move>, a: nat, k: nat, t: nat, call: EngineCall)
    requires k <= |moves| <= |run|
  {
    exists j :: a <= j < k && Calls(run[j], moves[j], t, call)
  }

  /** The engine does not write document d and nobody removes it. */
  predicate Spares(world: World, m: Move, d: nat) {
    match m
    case EngineWrote(w, _) => DocAt(world.core, w) != d
    case Forgot(x) => x != d
    case _ => true
  }

  /** Of what was left of d, all is still there that has not been cleared. */
  ghost predicate Tracked(was: DocRow, world: World, d: nat, chunksCleared: bool, stateCleared: bool) {
    && d in world.rows
    && (world.rows[d].chunks <==> was.chunks && !chunksCleared)
    && (world.rows[d].extraction <==> was.extraction && !stateCleared)
  }

  lemma TrackedStays(c: Config, was: DocRow, world: World, m: Move, d: nat, chunksCleared: bool, stateCleared: bool)
    requires CanMove(world, m) && Tracked(was, world, d, chunksCleared, stateCleared) && Spares(world, m, d)
    ensures Tracked(was, Moved(c, world, m), d,
                    chunksCleared || Clears(world, m, d, ClearChunks), stateCleared || Clears(world, m, d, ClearState))
  {
    hide Apply, Request.Fate;
  }

  lemma OneMoreMove(run: seq<World>, moves: seq<Move>, a: nat, k: nat, d: nat, call: EngineCall)
    requires a <= k < |moves| <= |run|
    ensures Cleared(run, moves, a, k + 1, d, call)
        <==> Cleared(run, moves, a, k, d, call) || Clears(run[k], moves[k], d, call)
  {
    hide Clears;
    if Cleared(run, moves, a, k + 1, d, call) {
      var j :| a <= j < k + 1 && Clears(run[j], moves[j], d, call);
    }
  }

  /** Over any stretch of a history, as long as the engine does not write the document and nobody removes it: what
      was left of it is still there exactly if no clearing call for it returned. */
  lemma {:induction false} LeftExactly(c: Config, run: seq<World>, moves: seq<Move>, a: nat, k: nat, d: nat)
    requires IsHistory(c, run, moves) && a <= k < |run| && d in run[a].rows
    requires forall j | a <= j < k :: Spares(run[j], moves[j], d)
    ensures d in run[k].rows
    ensures run[k].rows[d].chunks <==> run[a].rows[d].chunks && !Cleared(run, moves, a, k, d, ClearChunks)
    ensures run[k].rows[d].extraction <==> run[a].rows[d].extraction && !Cleared(run, moves, a, k, d, ClearState)
    decreases k
  {
    hide Moved, CanMove, Clears, Spares;
    if a < k {
      LeftExactly(c, run, moves, a, k - 1, d);
      assert MovesTo(c, run[k - 1], moves[k - 1], run[k - 1 + 1]);
      TrackedStays(c, run[a].rows[d], run[k - 1], moves[k - 1], d,
                   Cleared(run, moves, a, k - 1, d, ClearChunks), Cleared(run, moves, a, k - 1, d, ClearState));
      OneMoreMove(run, moves, a, k - 1, d, ClearChunks);
      OneMoreMove(run, moves, a, k - 1, d, ClearState);
    }
  }

  // ---------- which clearing calls are made ----------

  /** A clearing call for ticket t is in the trace exactly if it was made. */
  lemma {:induction false} TraceOfClearing(c: Config, run: seq<World>, moves: seq<Move>, k: nat, t: nat,
                                           call: EngineCall)
    requires IsHistory(c, run, moves) && k < |run| && call != Process
    ensures Event(t, call) in run[k].core.trace <==> Called(run, moves, 0, k, t, call)
  {
    if k == 0 {
      var workers: nat :| run[0].core == Initial(workers);
    } else {
      hide Moved, CanMove, Calls, Apply;
      TraceOfClearing(c, run, moves, k - 1, t, call);
      assert MovesTo(c, run[k - 1], moves[k - 1], run[k - 1 + 1]);
      TraceAfterMove(c, run[k - 1], moves[k - 1], t, call);
      if Called(run, moves, 0, k, t, call) {
        var j :| 0 <= j < k && Calls(run[j], moves[j], t, call);
      }
    }
  }

  lemma TraceAfterMove(c: Config, world: World, m: Move, t: nat, call: EngineCall)
    requires CanMove(world, m) && call != Process
    ensures Event(t, call) in Moved(c, world, m).core.trace
        <==> Event(t, call) in world.core.trace || Calls(world, m, t, call)
  {
    hide Apply, Moved;
    CoreMoves(c, world, m);
    if StepOf(world, m).Some? { TraceAfterStep(c, world.core, StepOf(world, m).value, Event(t, call)); }
  }

  lemma TraceAfterStep(c: Config, s: State, step: Step, e: Event)
    requires Enabled(s, step) && e.call != Process
    ensures e in Apply(c, s, step).trace <==>
      e in s.trace || (ClearingOf(step) == Some(e.call) && !s.workers[step.w].Idle? && s.workers[step.w].t == e.t)
  {
    hide Fire, FireAll, EarlyResults;
  }

  /** No clearing call is made for a ticket that does not exist yet. */
  lemma NotBeforeItExists(c: Config, run: seq<World>, moves: seq<Move>, e: nat, k: nat, t: nat, call: EngineCall)
    requires IsHistory(c, run, moves) && e <= k <= |moves| && t >= |run[e].core.items| && call != Process
    ensures Called(run, moves, 0, k, t, call) <==> Called(run, moves, e, k, t, call)
  {
    if j: nat :| j < e && Calls(run[j], moves[j], t, call) {
      HistoryKeepsInv(c, run, moves, j);
      HistoryGrows(c, run, moves, j, e);
      assert run[j].core.Holding(moves[j].step.w, t);
      assert false;
    }
  }

  lemma {:induction false} HistoryGrows(c: Config, run: seq<World>, moves: seq<Move>, a: nat, j: nat)
    requires IsHistory(c, run, moves) && a <= j < |run|
    ensures |run[a].core.items| <= |run[j].core.items|
    decreases j
  {
    hide Moved, CanMove, Apply;
    if a < j {
      HistoryGrows(c, run, moves, a, j - 1);
      assert MovesTo(c, run[j - 1], moves[j - 1], run[j - 1 + 1]);
      CoreMoves(c, run[j - 1], moves[j - 1]);
      if StepOf(run[j - 1], moves[j - 1]).Some? {
        ItemsGrow(c, run[j - 1].core, StepOf(run[j - 1], moves[j - 1]).value);
      }
    }
  }

  /** The engine is about to start on ticket t. */
  ghost predicate Starts(world: World, m: Move, t: nat) {
    && CanMove(world, m) && m.Processor? && m.step.ResolveParameters? && !m.step.raises
    && m.step.w < |world.core.workers| && world.core.workers[m.step.w] == Resolving(t)
  }

  /** At that point exactly the clearing calls that exist have been made, for a marked ticket, and none
      for another. */
  lemma CalledAtStart(c: Config, run: seq<World>, moves: seq<Move>, e: nat, k: nat, t: nat)
    requires IsHistory(c, run, moves) && e <= k < |moves| && t >= |run[e].core.items| && Starts(run[k], moves[k], t)
    ensures Called(run, moves, e, k, t, ClearChunks) <==> run[k].core.Marked(t) && c.hasVectorStore
    ensures Called(run, moves, e, k, t, ClearState) <==> run[k].core.Marked(t) && c.hasClear
  {
    HistoryKeepsInv(c, run, moves, k);
    ClearedAtStart(c, run[k], moves[k], t);
    TraceOfClearing(c, run, moves, k, t, ClearChunks);
    TraceOfClearing(c, run, moves, k, t, ClearState);
    NotBeforeItExists(c, run, moves, e, k, t, ClearChunks);
    NotBeforeItExists(c, run, moves, e, k, t, ClearState);
  }

  lemma ClearedAtStart(c: Config, world: World, m: Move, t: nat)
    requires WorldInv(c, world) && Starts(world, m, t)
    ensures Event(t, ClearChunks) in world.core.trace <==> world.core.Marked(t) && c.hasVectorStore
    ensures Event(t, ClearState) in world.core.trace <==> world.core.Marked(t) && c.hasClear
  {
    hide Inv, QueuesOnce;
    assert ClearingUnderWay(c, world.core, m.step.w);
    assert world.core.trace[..|world.core.trace|] == world.core.trace;
  }

  // ---------- processed with leftovers ----------

  /** What the engine finds of document d when it starts at move k, against what the lookup at move i found: all
      that no clearing call removed. */
  ghost predicate FindsExactly(run: seq<World>, moves: seq<Move>, i: nat, k: nat, d: nat)
    requires i <= k <= |moves| < |run| && d in run[i].rows
  {
    && d in run[k].rows
    && (run[k].rows[d].chunks <==> run[i].rows[d].chunks && !Cleared(run, moves, i, k, d, ClearChunks))
    && (run[k].rows[d].extraction <==> run[i].rows[d].extraction && !Cleared(run, moves, i, k, d, ClearState))
  }

  /** A document is queued by a submission that looked it up at move i and was registered at move e, and the engine
      starts on its ticket at move k. As long as the engine does not write it before and nobody removes it, it is
      processed with exactly those leftovers for which no clearing call returned; and a clearing call is made for
      its ticket exactly if the lookup found its row FAILED or ARCHIVED and the call exists. */
  lemma ProcessedUnclearedExactly(c: Config, run: seq<World>, moves: seq<Move>, i: nat, e: nat, k: nat, p: nat)
    requires IsHistory(c, run, moves) && IsAccepted(run, moves, i, e) && e < k < |moves|
    requires p < |DocsWith(moves[i].r, Queued)| && DocsWith(moves[i].r, Queued)[p] in run[i].rows
    requires Starts(run[k], moves[k], |run[e].core.items| + p)
    requires forall j | i <= j < k :: Spares(run[j], moves[j], DocsWith(moves[i].r, Queued)[p])
    ensures FindsExactly(run, moves, i, k, DocsWith(moves[i].r, Queued)[p])
    ensures var wanted := run[i].rows[DocsWith(moves[i].r, Queued)[p]].status in {FAILED, ARCHIVED};
      && (Called(run, moves, e, k, |run[e].core.items| + p, ClearChunks) <==> wanted && c.hasVectorStore)
      && (Called(run, moves, e, k, |run[e].core.items| + p, ClearState) <==> wanted && c.hasClear)
  {
    hide Starts, Spares, DocsWith, Called, Cleared, State.Marked;
    LeftExactly(c, run, moves, i, k, DocsWith(moves[i].r, Queued)[p]);
    TicketMarked(c, run, moves, i, e, p);
    HistoryMarks(c, run, moves, e + 1, k, |run[e].core.items| + p);
    CalledAtStart(c, run, moves, e, k, |run[e].core.items| + p);
  }

  /** A clearing call for document d is made for ticket t, and returns. */
  predicate OnlyFor(world: World, m: Move, d: nat, t: nat) {
    m.Processor? && ClearingOf(m.step).Some? && DocAt(world.core, m.step.w) == d ==>
      Calls(world, m, t, ClearingOf(m.step).value) && !m.raises
  }

  /** When only ticket t clears document d and its calls return, the document is cleared exactly as far as they
      are made. */
  lemma ClearedAsCalled(c: Config, run: seq<World>, moves: seq<Move>, a: nat, e: nat, k: nat, d: nat, t: nat,
                        call: EngineCall)
    requires IsHistory(c, run, moves) && a <= e <= k < |moves| && |run[e].core.items| <= t < |run[k].core.items|
    requires run[k].core.items[t].docId == d && call != Process
    requires forall j | a <= j < k :: OnlyFor(run[j], moves[j], d, t)
    ensures Cleared(run, moves, a, k, d, call) <==> Called(run, moves, e, k, t, call)
  {
    if Cleared(run, moves, a, k, d, call) {
      var j: nat :| a <= j < k && Clears(run[j], moves[j], d, call);
      assert OnlyFor(run[j], moves[j], d, t);
      assert Called(run, moves, 0, k, t, call);
      NotBeforeItExists(c, run, moves, e, k, t, call);
    }
    if Called(run, moves, e, k, t, call) {
      var j: nat :| e <= j < k && Calls(run[j], moves[j], t, call);
      CallsForDocument(c, run, moves, j, k, t, call);
      assert OnlyFor(run[j], moves[j], d, t);
    }
  }

  lemma CallsForDocument(c: Config, run: seq<World>, moves: seq<Move>, j: nat, k: nat, t: nat, call: EngineCall)
    requires IsHistory(c, run, moves) && j < k < |run| && Calls(run[j], moves[j], t, call)
    ensures t < |run[k].core.items| && DocAt(run[j].core, moves[j].step.w) == run[k].core.items[t].docId
  {
    hide CanMove, Moved, TraceInv, ClearsMarked;
    HistoryKeepsInv(c, run, moves, j);
    PlacedTicket(run[j].core, moves[j].step.w);
    HistoryMarks(c, run, moves, j, k, t);
  }

  /** So when the clearing calls return, and are made for no other ticket of the document, what was left before the
      submission is still there exactly if the lookup found the row neither FAILED nor ARCHIVED, or the call does
      not exist. */
  lemma ClearedWhenCallsReturn(c: Config, run: seq<World>, moves: seq<Move>, i: nat, e: nat, k: nat, p: nat)
    requires IsHistory(c, run, moves) && IsAccepted(run, moves, i, e) && e < k < |moves|
    requires p < |DocsWith(moves[i].r, Queued)| && DocsWith(moves[i].r, Queued)[p] in run[i].rows
    requires Starts(run[k], moves[k], |run[e].core.items| + p)
    requires forall j | i <= j < k :: Spares(run[j], moves[j], DocsWith(moves[i].r, Queued)[p])
    requires forall j | i <= j < k ::
      OnlyFor(run[j], moves[j], DocsWith(moves[i].r, Queued)[p], |run[e].core.items| + p)
    ensures var d := DocsWith(moves[i].r, Queued)[p];
      var wanted := run[i].rows[d].status in {FAILED, ARCHIVED};
      && d in run[k].rows
      && (run[k].rows[d].chunks <==> run[i].rows[d].chunks && !(wanted && c.hasVectorStore))
      && (run[k].rows[d].extraction <==> run[i].rows[d].extraction && !(wanted && c.hasClear))
  {
    hide Starts, Spares, DocsWith, OnlyFor, Called, Cleared;
    var d, t := DocsWith(moves[i].r, Queued)[p], |run[e].core.items| + p;
    ProcessedUnclearedExactly(c, run, moves, i, e, k, p);
    TicketMarked(c, run, moves, i, e, p);
    HistoryMarks(c, run, moves, e + 1, k, t);
    ClearedAsCalled(c, run, moves, i, e, k, d, t, ClearChunks);
    ClearedAsCalled(c, run, moves, i, e, k, d, t, ClearState);
  }

  /** A queued document whose row the lookup found FAILED or ARCHIVED has every clearing call that exists made for
      its ticket before the engine gets it, whatever else happens, and the engine gets it once. */
  lemma RequeuedIsClearedFirst(c: Config, run: seq<World>, moves: seq<Move>, i: nat, e: nat, k: nat, p: nat, q: nat)
    requires IsHistory(c, run, moves) && IsAccepted(run, moves, i, e) && e < k < |run|
    requires p < |DocsWith(moves[i].r, Queued)| && DocsWith(moves[i].r, Queued)[p] in run[i].rows
    requires run[i].rows[DocsWith(moves[i].r, Queued)[p]].status in {FAILED, ARCHIVED}
    requires q < |run[k].core.trace| && run[k].core.trace[q] == Event(|run[e].core.items| + p, Process)
    ensures ClearedBefore(c, run[k].core.trace, q, |run[e].core.items| + p)
    ensures forall j | 0 <= j < |run[k].core.trace| && run[k].core.trace[j] == run[k].core.trace[q] :: j == q
  {
    hide Inv, ClearsMarked, ClearedBefore, DocsWith, State.Marked, QueuesOnce;
    TicketMarked(c, run, moves, i, e, p);
    HistoryMarks(c, run, moves, e + 1, k, |run[e].core.items| + p);
    HistoryKeepsInv(c, run, moves, k);
    assert EventInv(c, run[k].core, q);
    forall j | 0 <= j < |run[k].core.trace| && run[k].core.trace[j] == run[k].core.trace[q] ensures j == q {
      assert EventInv(c, run[k].core, j);
    }
  }

  /** An orphan has no registration, so no clearing call is ever made for its ticket, and it is processed with all
      that no other ticket's call cleared. */
  lemma OrphanIsNotCleared(c: Config, run: seq<World>, moves: seq<Move>, i: nat, k: nat)
    requires IsHistory(c, run, moves) && i < k < |moves| && moves[i].Claimed?
    requires Starts(run[k], moves[k], |run[i].core.items|)
    requires forall j | i <= j < k :: Spares(run[j], moves[j], moves[i].docId)
    ensures moves[i].docId in run[i].rows && FindsExactly(run, moves, i, k, moves[i].docId)
    ensures !Called(run, moves, i, k, |run[i].core.items|, ClearChunks)
    ensures !Called(run, moves, i, k, |run[i].core.items|, ClearState)
  {
    hide Starts, Spares, Called, Cleared, State.Marked;
    assert MovesTo(c, run[i], moves[i], run[i + 1]);
    OrphanQueued(c, run[i], moves[i]);
    LeftExactly(c, run, moves, i, k, moves[i].docId);
    HistoryMarks(c, run, moves, i + 1, k, |run[i].core.items|);
    CalledAtStart(c, run, moves, i, k, |run[i].core.items|);
  }

  lemma OrphanQueued(c: Config, world: World, m: Move)
    requires CanMove(world, m) && m.Claimed?
    ensures m.docId in world.rows && |Moved(c, world, m).core.items| == |world.core.items| + 1
    ensures !Moved(c, world, m).core.Marked(|world.core.items|)
  {
  }
}
