/** The processor together with the document rows in storage, over whole histories: submissions that look rows
    up, write them and queue them with anything going on in between, orphans that are claimed, and an engine
    that writes rows. Marks live in the registration of one submission, statuses and leftovers in storage. */
module Histories {
  import opened Options
  import opened BatchResults
  import opened PendingProcessor
  import opened PendingProcessorRuns
  import opened Submission

  /** A stored document: its status, and whether chunks or other extraction state of an earlier attempt
      are there. Each kind of leftovers has its own clearing call. */
  datatype DocRow = DocRow(status: Status, chunks: bool, extraction: bool)

  /** A submission under way: the inputs before next have been dealt with. */
  datatype Open = Open(r: Request, next: nat, over: bool)

  datatype World = World(core: State, rows: map<nat, DocRow>, open: seq<Open>)

  /** What can happen next. A submission looks its external ids up, deals with its inputs one by one and is then
      registered. raises tells whether the storage or clearing call of a processor step raises. The engine may
      write the row and leave state behind at any time while it is at work on the document. */
  datatype Move =
    | LookedUp(r: Request)
    | Wrote(x: nat)
    | Registered(x: nat, limit: nat)
    | Claimed(docId: nat)
    | Processor(step: Step, raises: bool)
    | EngineWrote(w: nat, row: DocRow)
    | Archived(docId: nat)
    | Forgot(docId: nat)

  // ---------- submissions ----------

  /** The document that input i stands for. */
  function DocOf(r: Request, i: nat): nat
    requires r.Valid() && i < |r.inputs|
  {
    if r.inputs[i].externalId in r.idOf then r.idOf[r.inputs[i].externalId] else r.ids[i]
  }

  /** The documents of the inputs with a fate, in order. */
  ghost function DocsWith(r: Request, fate: Fate): (docs: seq<nat>)
    requires r.Valid()
    ensures |docs| == |r.WithFate(|r.inputs|, fate)|
  {
    var inputs := r.WithFate(|r.inputs|, fate);
    seq(|inputs|, k requires 0 <= k < |inputs| => if inputs[k] < |r.inputs| then DocOf(r, inputs[k]) else 0)
  }

  ghost function MarkedBy(r: Request): set<nat>
    requires r.Valid()
  {
    MarkedIds(r.inputs, r.prior, r.idOf, r.reprocessArchived, |r.inputs|)
  }

  ghost function SubmitStep(r: Request, limit: nat): Step
    requires r.Valid()
  {
    Submit(DocsWith(r, WriteFailed), DocsWith(r, Skipped), DocsWith(r, Queued), MarkedBy(r), limit)
  }

  /** The lookup found rows as they are, perhaps not all of them, and new ids are new and all different. */
  ghost predicate IsCurrent(rows: map<nat, DocRow>, r: Request) {
    && r.Valid()
    && (forall e | e in r.idOf :: r.idOf[e] in rows && rows[r.idOf[e]].status == r.prior[e])
    && (forall e, f | e in r.idOf && f in r.idOf && r.idOf[e] == r.idOf[f] :: e == f)
    && (forall i | 0 <= i < |r.ids| :: r.ids[i] !in rows)
    && (forall i, j | 0 <= i < j < |r.ids| :: r.ids[i] != r.ids[j])
  }

  /** Dealing with one input: a queued document is written as PENDING and keeps what earlier attempts left; a new
      one is created; nothing is written for the others, nor for a row that is gone. */
  function RowsWritten(rows: map<nat, DocRow>, r: Request, i: nat): map<nat, DocRow>
    requires r.Valid() && i < |r.inputs|
  {
    var d := DocOf(r, i);
    if r.Fate(i) != Queued then rows
    else if d in rows then rows[d := rows[d].(status := PENDING)]
    else if r.inputs[i].externalId in r.idOf then rows
    else rows[d := DocRow(PENDING, false, false)]
  }

  /** The lists into which a submission sorts its documents are those of this step. */
  lemma SubmitsTheLists(r: Request, existing: map<string, Document>, l: Lists)
    requires r.Valid() && IsLookup(r, existing) && Sorted(r, |r.inputs|, l) && RowsKept(r, existing, |r.inputs|, l)
    ensures DocsWith(r, Queued) == IdsOf(l.pending) && DocsWith(r, WriteFailed) == IdsOf(l.preFailed)
    ensures DocsWith(r, Skipped) == IdsOf(l.preCompleted) && MarkedBy(r) == l.marked
  {
    hide FateOf, MarkedIds;
    EntriesAreDocs(r, existing, l.pending);
    EntriesAreDocs(r, existing, l.preFailed);
    EntriesAreDocs(r, existing, l.preCompleted);
    assert |InputsOf(l.pending)| == |l.pending| && |InputsOf(l.preFailed)| == |l.preFailed|
      && |InputsOf(l.preCompleted)| == |l.preCompleted|;
  }

  lemma EntriesAreDocs(r: Request, existing: map<string, Document>, entries: seq<Entry>)
    requires r.Valid() && IsLookup(r, existing)
    requires forall e | e in entries :: e.input < |r.inputs| && StandsFor(r.inputs, existing, r.ids, e)
    ensures forall k | 0 <= k < |entries| ::
      InputsOf(entries)[k] < |r.inputs| && DocOf(r, InputsOf(entries)[k]) == IdsOf(entries)[k]
  {
    forall k | 0 <= k < |entries|
      ensures entries[k].input < |r.inputs| && DocOf(r, entries[k].input) == entries[k].doc.id
    {
      assert entries[k] in entries;
    }
  }

  // ---------- moves ----------

  /** The document in worker w's hands. */
  function DocAt(s: State, w: nat): nat {
    if w < |s.workers| && !s.workers[w].Idle? && s.workers[w].t < |s.items| then s.items[s.workers[w].t].docId else 0
  }

  predicate IsOrphan(s: State, w: nat) {
    w < |s.workers| && !s.workers[w].Idle? && s.workers[w].t < |s.items| && s.items[s.workers[w].t].batch == None
  }

  /** Submission x is under way and valid. */
  ghost predicate IsOpen(world: World, x: nat) { x < |world.open| && !world.open[x].over && world.open[x].r.Valid() }

  ghost predicate CanMove(world: World, m: Move) {
    match m
    case LookedUp(r) => IsCurrent(world.rows, r)
    case Wrote(x) => IsOpen(world, x) && world.open[x].next < |world.open[x].r.inputs|
    case Registered(x, limit) => IsOpen(world, x) && world.open[x].next == |world.open[x].r.inputs| && limit >= 1
    case Claimed(d) => d in world.rows && world.rows[d].status in {PENDING, PROCESSING}
    case Processor(step, _) =>
      && !step.Submit? && !step.EnqueueOrphan? && Enabled(world.core, step)
      && (step.Load? && step.outcome == Row ==> DocAt(world.core, step.w) in world.rows)
      && (step.Load? && step.outcome == RowGone ==> DocAt(world.core, step.w) !in world.rows)
    case EngineWrote(w, _) =>
      w < |world.core.workers| && world.core.workers[w].Processing? && DocAt(world.core, w) in world.rows
    case Archived(d) => d in world.rows && world.rows[d].status == COMPLETED
    case Forgot(d) => d in world.rows
  }

  /** What a processor step does to the rows: clearing calls clear, and a failed document is marked as
      such, except that the fallback does not write the row of an orphan. */
  function RowsAfter(world: World, step: Step, raises: bool): map<nat, DocRow> {
    if raises then world.rows
    else
      match step
      case ChunksCleared(w) =>
        var d := DocAt(world.core, w);
        if d in world.rows then world.rows[d := world.rows[d].(chunks := false)] else world.rows
      case StateCleared(w) =>
        var d := DocAt(world.core, w);
        if d in world.rows then world.rows[d := world.rows[d].(extraction := false)] else world.rows
      case StatusUpdated(w) =>
        var d := DocAt(world.core, w);
        var unwritten := w < |world.core.workers| && world.core.workers[w].FallingBack? && IsOrphan(world.core, w);
        if d !in world.rows || unwritten then world.rows
        else world.rows[d := world.rows[d].(status := FAILED)]
      case _ => world.rows
  }

  ghost function Moved(c: Config, world: World, m: Move): World
    requires CanMove(world, m)
  {
    match m
    case LookedUp(r) => world.(open := world.open + [Open(r, 0, false)])
    case Wrote(x) =>
      var o := world.open[x];
      world.(rows := RowsWritten(world.rows, o.r, o.next), open := world.open[x := o.(next := o.next + 1)])
    case Registered(x, limit) =>
      var o := world.open[x];
      world.(core := Apply(c, world.core, SubmitStep(o.r, limit)), open := world.open[x := o.(over := true)])
    case Claimed(d) =>
      world.(core := Apply(c, world.core, EnqueueOrphan(d)),
             rows := world.rows[d := world.rows[d].(status := PROCESSING)])
    case Processor(step, raises) => world.(core := Apply(c, world.core, step), rows := RowsAfter(world, step, raises))
    case EngineWrote(w, row) => world.(rows := world.rows[DocAt(world.core, w) := row])
    case Archived(d) => world.(rows := world.rows[d := world.rows[d].(status := ARCHIVED)])
    case Forgot(d) => world.(rows := world.rows - {d})
  }

  ghost predicate MovesTo(c: Config, world: World, m: Move, world': World) {
    CanMove(world, m) && world' == Moved(c, world, m)
  }

  /** A history from the start of a process, with any rows left by earlier ones. */
  ghost predicate IsHistory(c: Config, run: seq<World>, moves: seq<Move>) {
    && |run| == |moves| + 1 && (exists workers: nat :: run[0].core == Initial(workers)) && run[0].open == []
    && forall i | 0 <= i < |moves| :: MovesTo(c, run[i], moves[i], run[i + 1])
  }

  // ---------- what every move keeps ----------

  /** Only marked tickets are cleared, and only by the calls that exist. */
  ghost predicate ClearsMarked(c: Config, s: State) {
    && (forall w | 0 <= w < |s.workers| && s.workers[w].ClearingChunks? :: c.hasVectorStore && s.Marked(s.workers[w].t))
    && (forall w | 0 <= w < |s.workers| && s.workers[w].ClearingState? :: c.hasClear && s.Marked(s.workers[w].t))
    && (forall e | e in s.trace && e.call == ClearChunks :: c.hasVectorStore && s.Marked(e.t))
    && (forall e | e in s.trace && e.call == ClearState :: c.hasClear && s.Marked(e.t))
  }

  /** No document is queued twice by a submission. */
  ghost predicate QueuesOnce(r: Request) {
    r.Valid() && forall p, q | 0 <= p < q < |DocsWith(r, Queued)| :: DocsWith(r, Queued)[p] != DocsWith(r, Queued)[q]
  }

  ghost predicate WorldInv(c: Config, world: World) {
    && Inv(world.core) && TraceInv(c, world.core) && ClearsMarked(c, world.core)
    && forall x | 0 <= x < |world.open| :: QueuesOnce(world.open[x].r)
  }

  lemma KeepsClearsMarked(c: Config, s: State, step: Step)
    requires Placed(s) && ClearsMarked(c, s) && Enabled(s, step)
    ensures ClearsMarked(c, Apply(c, s, step))
  {
    hide Placed, Apply;
    var s' := Apply(c, s, step);
    forall w | 0 <= w < |s'.workers| ensures ClearsIfMarked(c, s', s'.workers[w]) { WorkerAfter(c, s, step, w); }
    forall e | e in s'.trace && e.call != Process
      ensures s'.Marked(e.t) && (if e.call == ClearChunks then c.hasVectorStore else c.hasClear)
    {
      EventAfter(c, s, step, e);
    }
  }

  ghost predicate ClearsIfMarked(c: Config, s: State, pc: Pc) {
    && (pc.ClearingChunks? ==> c.hasVectorStore && s.Marked(pc.t))
    && (pc.ClearingState? ==> c.hasClear && s.Marked(pc.t))
  }

  /** Where a clearing worker comes from. */
  lemma WorkerAfter(c: Config, s: State, step: Step, w: nat)
    requires Placed(s) && ClearsMarked(c, s) && Enabled(s, step)
    requires w < |Apply(c, s, step).workers|
    ensures ClearsIfMarked(c, Apply(c, s, step), Apply(c, s, step).workers[w])
  {
    hide Placed, ClearsMarked;
    var s' := Apply(c, s, step);
    if IsWorkerStep(step) && step.w == w { StepperAfter(c, s, step); }
    else if !step.Cancel? {
      SameWorkers(c, s, step, w);
      if !s.workers[w].Idle? { PlacedTicket(s, w); MarkedStays(c, s, step, s.workers[w].t); }
      ClearsNow(c, s, w);
    }
  }

  lemma ClearsNow(c: Config, s: State, w: nat)
    requires ClearsMarked(c, s) && w < |s.workers|
    ensures ClearsIfMarked(c, s, s.workers[w])
  {
  }

  lemma SameWorkers(c: Config, s: State, step: Step, w: nat)
    requires Enabled(s, step) && !step.Cancel? && !(IsWorkerStep(step) && step.w == w)
      && w < |Apply(c, s, step).workers|
    ensures w < |s.workers| && Apply(c, s, step).workers[w] == s.workers[w]
  {
  }

  lemma PlacedTicket(s: State, w: nat)
    requires Placed(s) && w < |s.workers| && !s.workers[w].Idle?
    ensures s.workers[w].t < |s.items|
  {
    assert s.Holding(w, s.workers[w].t);
  }

  lemma StepperAfter(c: Config, s: State, step: Step)
    requires Placed(s) && ClearsMarked(c, s) && Enabled(s, step) && IsWorkerStep(step)
    ensures step.w < |Apply(c, s, step).workers|
    ensures ClearsIfMarked(c, Apply(c, s, step), Apply(c, s, step).workers[step.w])
  {
    if step.ResolveEngine? || step.ChunksCleared? {
      PlacedTicket(s, step.w);
      MarkedStays(c, s, step, s.workers[step.w].t);
    }
  }

  lemma EventAfter(c: Config, s: State, step: Step, e: Event)
    requires Placed(s) && ClearsMarked(c, s) && Enabled(s, step) && e in Apply(c, s, step).trace && e.call != Process
    ensures Apply(c, s, step).Marked(e.t)
    ensures if e.call == ClearChunks then c.hasVectorStore else c.hasClear
  {
    if e in s.trace {
      MarkedStays(c, s, step, e.t);
    } else {
      var w := step.w;
      assert s.Holding(w, s.workers[w].t);
      MarkedStays(c, s, step, s.workers[w].t);
    }
  }

  /** The processor step that a move takes, if any. */
  ghost function StepOf(world: World, m: Move): Option<Step>
    requires CanMove(world, m)
  {
    match m
    case Registered(x, limit) => Some(SubmitStep(world.open[x].r, limit))
    case Claimed(d) => Some(EnqueueOrphan(d))
    case Processor(step, _) => Some(step)
    case _ => None
  }

  lemma CoreMoves(c: Config, world: World, m: Move)
    requires CanMove(world, m)
    ensures StepOf(world, m) == None ==> Moved(c, world, m).core == world.core
    ensures StepOf(world, m).Some? ==>
      Enabled(world.core, StepOf(world, m).value)
        && Moved(c, world, m).core == Apply(c, world.core, StepOf(world, m).value)
  {
    hide Apply;
  }

  /** Submissions stay what they are. */
  lemma OpenStays(c: Config, world: World, m: Move, x: nat)
    requires CanMove(world, m) && x < |Moved(c, world, m).open|
    ensures x < |world.open| ==> Moved(c, world, m).open[x].r == world.open[x].r
    ensures x >= |world.open| ==> m.LookedUp? && x == |world.open| && Moved(c, world, m).open[x].r == m.r
  {
  }

  /** A submission queues no document twice. */
  lemma CurrentQueuesOnce(rows: map<nat, DocRow>, r: Request)
    requires IsCurrent(rows, r)
    ensures QueuesOnce(r)
  {
    var inputs, docs := r.WithFate(|r.inputs|, Queued), DocsWith(r, Queued);
    ChosenExact(r.inputs, r.prior, r.reprocessArchived, r.raises, |r.inputs|, Queued);
    forall p, q | 0 <= p < q < |docs| ensures docs[p] != docs[q] {
      var x, y := inputs[p], inputs[q];
      assert x in inputs && y in inputs && x < y;
      assert !IsRepeat(r.inputs, y);
      var e, f := r.inputs[x].externalId, r.inputs[y].externalId;
      assert e in r.idOf && f in r.idOf ==> e != f;
    }
  }

  lemma MoveKeepsInv(c: Config, world: World, m: Move)
    requires WorldInv(c, world) && CanMove(world, m)
    ensures WorldInv(c, Moved(c, world, m))
  {
    hide Apply, TraceInv, ClearsMarked, Placed, BatchInv, QueuesOnce, Moved;
    CoreMoves(c, world, m);
    if StepOf(world, m).Some? {
      StepKeepsInv(c, world.core, StepOf(world, m).value);
      StepKeepsTraceInv(c, world.core, StepOf(world, m).value);
      KeepsClearsMarked(c, world.core, StepOf(world, m).value);
    }
    var world' := Moved(c, world, m);
    forall x | 0 <= x < |world'.open| ensures QueuesOnce(world'.open[x].r) {
      OpenStays(c, world, m, x);
      if m.LookedUp? { CurrentQueuesOnce(world.rows, m.r); }
    }
  }

  lemma {:induction false} HistoryKeepsInv(c: Config, run: seq<World>, moves: seq<Move>, j: nat)
    requires IsHistory(c, run, moves) && j < |run|
    ensures WorldInv(c, run[j])
  {
    hide Moved, CanMove;
    if j == 0 {
      var workers: nat :| run[0].core == Initial(workers);
      StartInv(c, run[0], workers);
    } else {
      HistoryKeepsInv(c, run, moves, j - 1);
      assert MovesTo(c, run[j - 1], moves[j - 1], run[j - 1 + 1]);
      MoveKeepsInv(c, run[j - 1], moves[j - 1]);
    }
  }

  lemma StartInv(c: Config, world: World, workers: nat)
    requires world.core == Initial(workers) && world.open == []
    ensures WorldInv(c, world)
  {
  }

  lemma {:induction false} HistoryKeepsOpen(c: Config, run: seq<World>, moves: seq<Move>, a: nat, j: nat, x: nat)
    requires IsHistory(c, run, moves) && a <= j < |run| && x < |run[a].open|
    ensures x < |run[j].open| && run[j].open[x].r == run[a].open[x].r
    decreases j
  {
    hide CanMove;
    if a < j {
      HistoryKeepsOpen(c, run, moves, a, j - 1, x);
      assert MovesTo(c, run[j - 1], moves[j - 1], run[j - 1 + 1]);
      OpenGrows(c, run[j - 1], moves[j - 1]);
      OpenStays(c, run[j - 1], moves[j - 1], x);
    }
  }

  lemma OpenGrows(c: Config, world: World, m: Move)
    requires CanMove(world, m)
    ensures |Moved(c, world, m).open| >= |world.open|
  {
  }

  // ---------- a submission's tickets ----------

  /** The submission looked up at move i is registered at move e, with the processor running. */
  ghost predicate IsAccepted(run: seq<World>, moves: seq<Move>, i: nat, e: nat) {
    && i < e < |moves| < |run| && moves[i].LookedUp? && moves[i].r.Valid()
    && moves[e].Registered? && moves[e].x == |run[i].open| && run[e].core.running
  }

  lemma AcceptedRequest(c: Config, run: seq<World>, moves: seq<Move>, i: nat, e: nat)
    requires IsHistory(c, run, moves) && i < e < |moves|
    requires moves[i].LookedUp? && moves[e].Registered? && moves[e].x == |run[i].open|
    ensures CanMove(run[i], moves[i]) && MovesTo(c, run[e], moves[e], run[e + 1])
    ensures moves[e].x < |run[e].open| && run[e].open[moves[e].x].r == moves[i].r
  {
    assert MovesTo(c, run[i], moves[i], run[i + 1]);
    assert MovesTo(c, run[e], moves[e], run[e + 1]);
    HistoryKeepsOpen(c, run, moves, i + 1, e, |run[i].open|);
  }

  /** The tickets of batch b are those from first on, one for each of the documents. */
  ghost predicate TicketsFor(s: State, b: nat, first: nat, docs: seq<nat>) {
    && b < |s.batches| && first + |docs| <= |s.items|
    && (forall k | 0 <= k < |docs| :: s.items[first + k] == Item(docs[k], Some(b)))
    && (forall t | t in s.TicketsOf(b) :: first <= t < first + |docs|)
  }

  lemma TicketsStay(c: Config, s: State, step: Step, b: nat, first: nat, docs: seq<nat>)
    requires Enabled(s, step) && TicketsFor(s, b, first, docs)
    ensures TicketsFor(Apply(c, s, step), b, first, docs)
  {
    hide Fire, FireAll, EarlyResults, State.Marked;
    var s' := Apply(c, s, step);
    if KeepsTicket(step) { KeepsTicketWentOn(c, s, step); }
    else if Settles(step) { SettlesWasSettled(c, s, step); }
    assert forall t | 0 <= t < |s.items| :: s'.items[t] == s.items[t];
    assert forall t | |s.items| <= t < |s'.items| :: s'.items[t].batch != Some(b);
    forall t | t in s'.TicketsOf(b) ensures t in s.TicketsOf(b) { }
  }

  lemma NewTickets(s: State, r: Request, limit: nat)
    requires Placed(s) && r.Valid() && s.running
    ensures var step := SubmitStep(r, limit);
      TicketsFor(SubmitBatch(s, step.failed, step.skipped, step.pending, step.marked, step.limit), |s.batches|,
                 |s.items|, DocsWith(r, Queued))
  {
    hide FireAll, EarlyResults, DocsWith;
    assert forall t | 0 <= t < |s.items| :: s.items[t].batch != Some(|s.batches|);
  }

  lemma {:induction false} HistoryTickets(c: Config, run: seq<World>, moves: seq<Move>, a: nat, j: nat,
                                         b: nat, first: nat, docs: seq<nat>)
    requires IsHistory(c, run, moves) && a <= j < |run| && TicketsFor(run[a].core, b, first, docs)
    ensures TicketsFor(run[j].core, b, first, docs)
    decreases j
  {
    hide Moved, Apply, TicketsFor, CanMove;
    if a < j {
      HistoryTickets(c, run, moves, a, j - 1, b, first, docs);
      assert MovesTo(c, run[j - 1], moves[j - 1], run[j - 1 + 1]);
      CoreMoves(c, run[j - 1], moves[j - 1]);
      if StepOf(run[j - 1], moves[j - 1]).Some? {
        TicketsStay(c, run[j - 1].core, StepOf(run[j - 1], moves[j - 1]).value, b, first, docs);
      }
    }
  }

  lemma Submitting(c: Config, s: State, r: Request, limit: nat)
    requires Inv(s) && r.Valid() && s.running && Enabled(s, SubmitStep(r, limit))
    ensures TicketsFor(Apply(c, s, SubmitStep(r, limit)), |s.batches|, |s.items|, DocsWith(r, Queued))
  {
    hide SubmitBatch, TicketsFor, DocsWith;
    NewTickets(s, r, limit);
  }

  /** From its registration on, the tickets of an accepted submission are one for each queued document. */
  lemma AcceptedTickets(c: Config, run: seq<World>, moves: seq<Move>, i: nat, e: nat, k: nat)
    requires IsHistory(c, run, moves) && IsAccepted(run, moves, i, e) && e < k < |run|
    ensures TicketsFor(run[k].core, |run[e].core.batches|, |run[e].core.items|, DocsWith(moves[i].r, Queued))
  {
    hide Moved, Apply, Inv, TraceInv, ClearsMarked, DocsWith, TicketsFor;
    AcceptedRequest(c, run, moves, i, e);
    HistoryKeepsInv(c, run, moves, e);
    CoreMoves(c, run[e], moves[e]);
    Submitting(c, run[e].core, moves[i].r, moves[e].limit);
    HistoryTickets(c, run, moves, e + 1, k, |run[e].core.batches|, |run[e].core.items|, DocsWith(moves[i].r, Queued));
  }

  /** In every history, the callback of an accepted submission is called once for each of its queued
      documents that is settled, and not at all for the others. */
  lemma CalledOnce(c: Config, run: seq<World>, moves: seq<Move>, i: nat, e: nat, k: nat, p: nat)
    requires IsHistory(c, run, moves) && IsAccepted(run, moves, i, e) && e < k < |run|
    requires p < |DocsWith(moves[i].r, Queued)|
    ensures var b, t := |run[e].core.batches|, |run[e].core.items| + p;
      && b < |run[k].core.batches|
      && |CallsFor(run[k].core, b, DocsWith(moves[i].r, Queued)[p])| == if t in run[k].core.settled then 1 else 0
  {
    hide Moved, Apply, Inv, TraceInv, ClearsMarked, DocsWith, CallsFor, CanMove;
    var b, first, docs, s := |run[e].core.batches|, |run[e].core.items|, DocsWith(moves[i].r, Queued), run[k].core;
    AcceptedTickets(c, run, moves, i, e, k);
    HistoryKeepsInv(c, run, moves, k);
    assert MovesTo(c, run[i], moves[i], run[i + 1]);
    LookedUpQueuesOnce(run[i], moves[i]);
    forall u | u in s.TicketsOf(b) && s.items[u].docId == docs[p] ensures u == first + p {
      assert s.items[first + (u - first)] == Item(docs[u - first], Some(b));
    }
    assert s.items[first + p] == Item(docs[p], Some(b));
    ExactlyOnce(s, b, first + p);
  }

  lemma LookedUpQueuesOnce(world: World, m: Move)
    requires CanMove(world, m) && m.LookedUp?
    ensures QueuesOnce(m.r)
  {
    CurrentQueuesOnce(world.rows, m.r);
  }

  /** A ticket stays what it is, marked or not. */
  lemma {:induction false} HistoryMarks(c: Config, run: seq<World>, moves: seq<Move>, a: nat, j: nat, t: nat)
    requires IsHistory(c, run, moves) && a <= j < |run| && t < |run[a].core.items|
    ensures t < |run[j].core.items| && run[j].core.items[t] == run[a].core.items[t]
    ensures run[j].core.Marked(t) <==> run[a].core.Marked(t)
    decreases j
  {
    hide Moved, Placed, TraceInv, ClearsMarked, State.Marked, Apply, CanMove;
    if a < j {
      HistoryMarks(c, run, moves, a, j - 1, t);
      HistoryKeepsInv(c, run, moves, j - 1);
      assert MovesTo(c, run[j - 1], moves[j - 1], run[j - 1 + 1]);
      var world, m := run[j - 1], moves[j - 1];
      CoreMoves(c, world, m);
      if StepOf(world, m).Some? {
        MarkedStays(c, world.core, StepOf(world, m).value, t);
        ItemStays(c, world.core, StepOf(world, m).value, t);
      }
    }
  }

  lemma ItemStays(c: Config, s: State, step: Step, t: nat)
    requires Enabled(s, step) && t < |s.items|
    ensures t < |Apply(c, s, step).items| && Apply(c, s, step).items[t] == s.items[t]
  {
    hide Fire, FireAll, EarlyResults;
  }

  /** An existing row is marked exactly when it had failed or was archived. */
  lemma MarkedMeans(rows: map<nat, DocRow>, r: Request, p: nat)
    requires IsCurrent(rows, r) && p < |DocsWith(r, Queued)| && DocsWith(r, Queued)[p] in rows
    ensures DocsWith(r, Queued)[p] in MarkedBy(r) <==> rows[DocsWith(r, Queued)[p]].status in {FAILED, ARCHIVED}
  {
    var inputs, d := r.WithFate(|r.inputs|, Queued), DocsWith(r, Queued)[p];
    ChosenExact(r.inputs, r.prior, r.reprocessArchived, r.raises, |r.inputs|, Queued);
    MarkedIdsExact(r.inputs, r.prior, r.idOf, r.reprocessArchived, |r.inputs|, d);
    var x := inputs[p];
    assert x in inputs;
    assert r.inputs[x].externalId in r.idOf;
    if NeedsClearing(r.prior[r.inputs[x].externalId], r.reprocessArchived) {
      assert IsMarked(r.inputs, r.prior, r.reprocessArchived, x);
    }
  }

  /** The ticket of an accepted submission's document is marked exactly when the lookup found its row FAILED or
      ARCHIVED. */
  lemma TicketMarked(c: Config, run: seq<World>, moves: seq<Move>, i: nat, e: nat, p: nat)
    requires IsHistory(c, run, moves) && IsAccepted(run, moves, i, e)
    requires p < |DocsWith(moves[i].r, Queued)| && DocsWith(moves[i].r, Queued)[p] in run[i].rows
    ensures var d, t := DocsWith(moves[i].r, Queued)[p], |run[e].core.items| + p;
      && t < |run[e + 1].core.items| && run[e + 1].core.items[t].docId == d
      && (run[e + 1].core.Marked(t) <==> run[i].rows[d].status in {FAILED, ARCHIVED})
  {
    hide DocsWith, MarkedBy, Fire, FireAll, EarlyResults;
    AcceptedRequest(c, run, moves, i, e);
    AcceptedTickets(c, run, moves, i, e, e + 1);
    MarkedMeans(run[i].rows, moves[i].r, p);
    assert run[e + 1].core.items[|run[e].core.items| + p]
      == Item(DocsWith(moves[i].r, Queued)[p], Some(|run[e].core.batches|));
  }

  /** The move queues document d for registration: its row is written, if it is there. */
  ghost predicate Writes(world: World, m: Move, d: nat) {
    && CanMove(world, m) && m.Wrote?
    && world.open[m.x].r.Fate(world.open[m.x].next) == Queued && DocOf(world.open[m.x].r, world.open[m.x].next) == d
  }

  /** An existing row is made PENDING and otherwise left as it is. */
  lemma WriteResets(c: Config, world: World, m: Move, d: nat)
    requires Writes(world, m, d) && d in world.rows
    ensures Moved(c, world, m).rows == world.rows[d := world.rows[d].(status := PENDING)]
  {
  }

  /** A document that is not stored is created as PENDING with nothing left behind, unless a row with its external id
      had been looked up: then the row is gone, and nothing is written. */
  lemma WriteCreates(c: Config, world: World, m: Move, d: nat)
    requires Writes(world, m, d) && d !in world.rows
    ensures var r := world.open[m.x].r;
      Moved(c, world, m).rows == if r.inputs[world.open[m.x].next].externalId in r.prior then world.rows
                                 else world.rows[d := DocRow(PENDING, false, false)]
  {
  }

  /** What a move does to a stored row that it does not remove, written out. A queued document's write, a claim, the
      update of a failed document and the archiving of one each set the status and nothing else, a clearing call that
      returns takes away what it is for and nothing else, the engine at work on the document may write anything, and no
      other move touches the row. */
  lemma RowAfterMove(c: Config, world: World, m: Move, d: nat)
    requires CanMove(world, m) && d in world.rows && m != Forgot(d)
    ensures var row := world.rows[d];
      var orphan := m.Processor? && m.step.StatusUpdated? && IsOrphan(world.core, m.step.w);
      d in Moved(c, world, m).rows && Moved(c, world, m).rows[d] ==
        match m
        case Wrote(_) => if Writes(world, m, d) then DocRow(PENDING, row.chunks, row.extraction) else row
        case Claimed(e) => if e == d then DocRow(PROCESSING, row.chunks, row.extraction) else row
        case Archived(e) => if e == d then DocRow(ARCHIVED, row.chunks, row.extraction) else row
        case EngineWrote(w, written) => if DocAt(world.core, w) == d then written else row
        case Processor(step, raises) =>
          (if raises || !IsWorkerStep(step) || DocAt(world.core, step.w) != d then row
           else if step.ChunksCleared? then DocRow(row.status, false, row.extraction)
           else if step.StateCleared? then DocRow(row.status, row.chunks, false)
           else if step.StatusUpdated? && !(orphan && world.core.workers[step.w].FallingBack?)
           then DocRow(FAILED, row.chunks, row.extraction)
           else row)
        case _ => row
  {
    hide Apply, SubmitStep, Request.Fate;
  }

  /** A refused submission queues nothing, and its rows stay as they were written: what marked them is gone. */
  lemma RefusedLosesMark(c: Config, world: World, x: nat, limit: nat)
    requires CanMove(world, Registered(x, limit)) && !world.core.running && DocsWith(world.open[x].r, Queued) != []
    ensures Moved(c, world, Registered(x, limit)).core.items == world.core.items
    ensures Moved(c, world, Registered(x, limit)).core.queue == world.core.queue
    ensures Moved(c, world, Registered(x, limit)).rows == world.rows
  {
  }
}
