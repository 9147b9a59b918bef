/** Concrete histories of one document in which a promise fails: a mark that a refusal loses, clearing calls that
    raise, two workers at one document, and a row that is reset while it is worked on. */
module Scenarios {
  import opened Options
  import opened BatchResults
  import opened PendingProcessor
  import opened Submission
  import opened Histories
  import opened Leftovers

  // ---------- scripts ----------

  /** Everything that matters of a world with document d only: the workers, the tickets, each in a batch of its own
      with its mark and its free slots, the row, and the submissions. */
  datatype Scene = Scene(pcs: seq<Pc>, running: bool, queue: seq<nat>, marks: seq<bool>, free: seq<nat>,
                         row: DocRow, open: seq<Open>)

  ghost predicate Shows(world: World, d: nat, scene: Scene) {
    && world.core.workers == scene.pcs && world.core.running == scene.running && world.core.queue == scene.queue
    && |world.core.items| == |scene.marks| == |scene.free| <= |world.core.batches|
    && (forall t | 0 <= t < |scene.marks| :: ShowsTicket(world.core, d, scene, t))
    && world.rows == map[d := scene.row] && world.open == scene.open
  }

  ghost predicate ShowsTicket(s: State, d: nat, scene: Scene, t: nat)
    requires t < |s.items| == |scene.marks| == |scene.free| <= |s.batches|
  {
    var b := |s.batches| - |s.items| + t;
    && s.items[t] == Item(d, Some(b)) && s.batches[b].free == scene.free[t]
    && s.batches[b].marked == if scene.marks[t] then {d} else {}
  }

  /** What is done next: a submission of the document takes its three moves, a worker goes on, with every clearing
      call raising, or the engine writes the row. */
  datatype Act =
    | LookUp(status: Status)
    | Write(x: nat)
    | Register(x: nat)
    | Begin
    | Work(w: nat)
    | Engine(w: nat, row: DocRow)

  /** The submission of one document whose existing row the lookup found with the given status. */
  function Single(d: nat, status: Status): Request {
    Request([Input("report", "text")], map["report" := status], map["report" := d], [false], [d + 1], false)
  }

  function WorkStep(pc: Pc, w: nat): Step {
    match pc
    case Idle => Dequeue(w)
    case Loading(_) => Load(w, Row)
    case AwaitingSlot(_) => TakeSlot(w)
    case Preparing(_) => ResolveEngine(w, false, true)
    case ClearingChunks(_) => ChunksCleared(w)
    case ClearingState(_) => StateCleared(w)
    case _ => ResolveParameters(w, false)
  }

  function MoveOf(d: nat, scene: Scene, act: Act): Move {
    match act
    case LookUp(status) => LookedUp(Single(d, status))
    case Write(x) => Wrote(x)
    case Register(x) => Registered(x, 1)
    case Begin => Processor(Start, false)
    case Work(w) => Processor(if w < |scene.pcs| then WorkStep(scene.pcs[w], w) else Cancel, true)
    case Engine(w, row) => EngineWrote(w, row)
  }

  /** Where a worker goes from pc. */
  function Onward(c: Config, pc: Pc, queue: seq<nat>, marks: seq<bool>): Pc {
    match pc
    case Idle => if queue == [] then Idle else Loading(queue[0])
    case Loading(t) => AwaitingSlot(t)
    case AwaitingSlot(t) => Preparing(t)
    case Preparing(t) =>
      if t >= |marks| || !marks[t] then Resolving(t)
      else if c.hasVectorStore then ClearingChunks(t)
      else AfterChunks(c, t)
    case ClearingChunks(t) => AfterChunks(c, t)
    case ClearingState(t) => Resolving(t)
    case Resolving(t) => Processing(t)
    case _ => pc
  }

  predicate MayWork(scene: Scene, pc: Pc) {
    if pc.Idle? then scene.queue != [] && scene.queue[0] < |scene.marks|
    else pc.t < |scene.marks| == |scene.free| && (pc.AwaitingSlot? ==> scene.free[pc.t] == 1)
         && !pc.Processing? && !pc.MarkingFailed? && !pc.FallingBack?
  }

  predicate May(d: nat, scene: Scene, act: Act) {
    match act
    case LookUp(status) => status == scene.row.status
    case Write(x) => x < |scene.open|
      && scene.open[x] in {Open(Single(d, FAILED), 0, false), Open(Single(d, PENDING), 0, false)}
    case Register(x) => x < |scene.open|
      && scene.open[x] in {Open(Single(d, FAILED), 1, false), Open(Single(d, PENDING), 1, false)}
    case Begin => !scene.running
    case Work(w) => scene.running && w < |scene.pcs| && MayWork(scene, scene.pcs[w])
    case Engine(w, _) => w < |scene.pcs| && scene.pcs[w].Processing? && scene.pcs[w].t < |scene.marks|
  }

  function Done(c: Config, d: nat, scene: Scene, act: Act): Scene
    requires May(d, scene, act)
  {
    match act
    case LookUp(status) => scene.(open := scene.open + [Open(Single(d, status), 0, false)])
    case Write(x) => scene.(row := scene.row.(status := PENDING), open := scene.open[x := scene.open[x].(next := 1)])
    case Register(x) =>
      var over := scene.(open := scene.open[x := scene.open[x].(over := true)]);
      if !scene.running then over
      else over.(queue := scene.queue + [|scene.marks|], free := scene.free + [1],
                 marks := scene.marks + [scene.open[x] == Open(Single(d, FAILED), 1, false)])
    case Begin => scene.(running := true)
    case Work(w) =>
      var pc := scene.pcs[w];
      scene.(pcs := scene.pcs[w := Onward(c, pc, scene.queue, scene.marks)],
             queue := if pc.Idle? then scene.queue[1..] else scene.queue,
             free := if pc.AwaitingSlot? then scene.free[pc.t := 0] else scene.free)
    case Engine(w, row) => scene.(row := row)
  }

  lemma SingleIsQueued(rows: map<nat, DocRow>, d: nat, status: Status)
    requires status in {FAILED, PENDING} && rows.Keys == {d}
    ensures DocsWith(Single(d, status), Queued) == [d]
    ensures DocsWith(Single(d, status), WriteFailed) == [] == DocsWith(Single(d, status), Skipped)
    ensures MarkedBy(Single(d, status)) == if status == FAILED then {d} else {}
    ensures Single(d, status).Fate(0) == Queued && DocOf(Single(d, status), 0) == d
    ensures rows[d].status == status ==> IsCurrent(rows, Single(d, status))
  {
    var r := Single(d, status);
    assert r.Fate(0) == Queued;
    forall fate ensures r.WithFate(1, fate) == if fate == Queued then [0] else [] {
      assert Chosen(r.inputs, r.prior, r.reprocessArchived, r.raises, 0, fate) == [];
    }
    assert MarkedIds(r.inputs, r.prior, r.idOf, r.reprocessArchived, 0) == {};
  }

  lemma LookUpIsCurrent(rows: map<nat, DocRow>, d: nat, status: Status)
    requires rows.Keys == {d} && rows[d].status == status
    ensures IsCurrent(rows, Single(d, status))
  {
  }

  lemma LooksUp(c: Config, world: World, d: nat, scene: Scene, act: Act)
    requires Shows(world, d, scene) && May(d, scene, act) && act.LookUp?
    ensures CanMove(world, MoveOf(d, scene, act))
      && Shows(Moved(c, world, MoveOf(d, scene, act)), d, Done(c, d, scene, act))
  {
    hide Request.Fate, DocsWith, ShowsTicket;
    LookUpIsCurrent(world.rows, d, act.status);
    SameTickets(world.core, d, scene, Done(c, d, scene, act));
  }

  lemma WritesOne(c: Config, world: World, d: nat, scene: Scene, x: nat, status: Status)
    requires Shows(world, d, scene) && x < |scene.open| && scene.open[x] == Open(Single(d, status), 0, false)
    requires status in {FAILED, PENDING}
    ensures CanMove(world, Wrote(x)) && Shows(Moved(c, world, Wrote(x)), d, Done(c, d, scene, Write(x)))
  {
    hide Request.Fate, DocsWith, ShowsTicket;
    SingleIsQueued(world.rows, d, status);
    SameTickets(world.core, d, scene, Done(c, d, scene, Write(x)));
  }

  lemma WritesRow(c: Config, world: World, d: nat, scene: Scene, act: Act)
    requires Shows(world, d, scene) && May(d, scene, act) && act.Write?
    ensures CanMove(world, MoveOf(d, scene, act))
      && Shows(Moved(c, world, MoveOf(d, scene, act)), d, Done(c, d, scene, act))
  {
    hide CanMove, Shows, Done, Single;
    if scene.open[act.x] == Open(Single(d, FAILED), 0, false) { WritesOne(c, world, d, scene, act.x, FAILED); }
    else { WritesOne(c, world, d, scene, act.x, PENDING); }
  }

  lemma SameTickets(s: State, d: nat, scene: Scene, scene': Scene)
    requires |s.items| == |scene.marks| == |scene.free| <= |s.batches| && scene'.marks == scene.marks
      && scene'.free == scene.free
    requires forall t | 0 <= t < |scene.marks| :: ShowsTicket(s, d, scene, t)
    ensures forall t | 0 <= t < |scene'.marks| :: ShowsTicket(s, d, scene', t)
  {
    forall t | 0 <= t < |scene'.marks| ensures ShowsTicket(s, d, scene', t) { assert ShowsTicket(s, d, scene, t); }
  }

  /** What submitting one document does. */
  lemma SubmitsOne(s: State, d: nat, marked: set<nat>)
    ensures var s' := SubmitBatch(s, [], [], [d], marked, 1);
      && s'.workers == s.workers && s'.running == s.running && |s'.batches| == |s.batches| + 1
      && (forall b | 0 <= b < |s.batches| :: s'.batches[b] == s.batches[b])
      && s'.batches[|s.batches|].marked == marked && s'.batches[|s.batches|].free == 1
      && s'.items == (if s.running then s.items + [Item(d, Some(|s.batches|))] else s.items)
      && s'.queue == if s.running then s.queue + [|s.items|] else s.queue
  {
    hide Fire, FireAll;
    var s' := SubmitBatch(s, [], [], [d], marked, 1);
    if s.running {
      assert s'.items == s.items + [Item(d, Some(|s.batches|))];
      assert s'.queue == s.queue + [|s.items|];
    } else {
      assert s'.items == s.items && s'.queue == s.queue;
    }
  }

  lemma RegistersIts(c: Config, world: World, d: nat, x: nat, status: Status)
    requires x < |world.open| && world.open[x] == Open(Single(d, status), 1, false)
    requires status in {FAILED, PENDING} && world.rows.Keys == {d}
    ensures CanMove(world, Registered(x, 1))
    ensures Moved(c, world, Registered(x, 1)) == World(
      SubmitBatch(world.core, [], [], [d], if status == FAILED then {d} else {}, 1), world.rows,
      world.open[x := Open(Single(d, status), 1, true)])
  {
    hide Request.Fate, DocsWith, MarkedBy, SubmitBatch;
    SingleIsQueued(world.rows, d, status);
  }

  lemma RegistersOne(c: Config, world: World, d: nat, scene: Scene, x: nat, status: Status)
    requires Shows(world, d, scene) && x < |scene.open| && scene.open[x] == Open(Single(d, status), 1, false)
    requires status in {FAILED, PENDING} && (!scene.running ==> scene.marks == [])
    ensures CanMove(world, Registered(x, 1))
      && Shows(Moved(c, world, Registered(x, 1)), d, Done(c, d, scene, Register(x)))
  {
    hide SubmitBatch, Moved, CanMove;
    RegistersIts(c, world, d, x, status);
    assert Single(d, FAILED).prior["report"] != Single(d, PENDING).prior["report"];
    hide Single;
    SubmitsOne(world.core, d, if status == FAILED then {d} else {});
    var s, s', scene' := world.core, Moved(c, world, Registered(x, 1)).core, Done(c, d, scene, Register(x));
    forall t | 0 <= t < |scene'.marks| ensures ShowsTicket(s', d, scene', t) {
      if t < |scene.marks| { assert ShowsTicket(s, d, scene, t); }
    }
  }

  lemma Registers(c: Config, world: World, d: nat, scene: Scene, act: Act)
    requires Shows(world, d, scene) && May(d, scene, act) && act.Register? && (!scene.running ==> scene.marks == [])
    ensures CanMove(world, MoveOf(d, scene, act))
      && Shows(Moved(c, world, MoveOf(d, scene, act)), d, Done(c, d, scene, act))
  {
    hide CanMove, Shows, Done, Single;
    if scene.open[act.x] == Open(Single(d, FAILED), 1, false) { RegistersOne(c, world, d, scene, act.x, FAILED); }
    else { RegistersOne(c, world, d, scene, act.x, PENDING); }
  }

  predicate IsTaking(pc: Pc) { pc.Idle? || pc.Loading? || pc.AwaitingSlot? }

  lemma Takes(c: Config, world: World, d: nat, scene: Scene, act: Act)
    requires Shows(world, d, scene) && May(d, scene, act) && act.Work? && IsTaking(scene.pcs[act.w])
    ensures CanMove(world, MoveOf(d, scene, act))
      && Shows(Moved(c, world, MoveOf(d, scene, act)), d, Done(c, d, scene, act))
  {
    hide Fire, FireAll, EarlyResults;
    var pc := scene.pcs[act.w];
    if !pc.Idle? { assert ShowsTicket(world.core, d, scene, pc.t); }
    var s', scene' := Moved(c, world, MoveOf(d, scene, act)).core, Done(c, d, scene, act);
    forall t | 0 <= t < |scene.marks|
      ensures ShowsTicket(s', d, scene', t)
    {
      assert ShowsTicket(world.core, d, scene, t);
    }
  }

  lemma Prepares(c: Config, world: World, d: nat, scene: Scene, act: Act)
    requires Shows(world, d, scene) && May(d, scene, act) && act.Work? && scene.pcs[act.w].Preparing?
    ensures CanMove(world, MoveOf(d, scene, act))
      && Shows(Moved(c, world, MoveOf(d, scene, act)), d, Done(c, d, scene, act))
  {
    hide Fire, FireAll, EarlyResults;
    var pc := scene.pcs[act.w];
    if !pc.Idle? { assert ShowsTicket(world.core, d, scene, pc.t); }
    var s', scene' := Moved(c, world, MoveOf(d, scene, act)).core, Done(c, d, scene, act);
    forall t | 0 <= t < |scene.marks|
      ensures ShowsTicket(s', d, scene', t)
    {
      assert ShowsTicket(world.core, d, scene, t);
    }
  }

  lemma ClearsInVain(c: Config, world: World, d: nat, scene: Scene, act: Act)
    requires Shows(world, d, scene) && May(d, scene, act) && act.Work?
    requires !IsTaking(scene.pcs[act.w]) && !scene.pcs[act.w].Preparing?
    ensures CanMove(world, MoveOf(d, scene, act))
      && Shows(Moved(c, world, MoveOf(d, scene, act)), d, Done(c, d, scene, act))
  {
    hide Fire, FireAll, EarlyResults;
    var pc := scene.pcs[act.w];
    if !pc.Idle? { assert ShowsTicket(world.core, d, scene, pc.t); }
    var s', scene' := Moved(c, world, MoveOf(d, scene, act)).core, Done(c, d, scene, act);
    forall t | 0 <= t < |scene.marks|
      ensures ShowsTicket(s', d, scene', t)
    {
      assert ShowsTicket(world.core, d, scene, t);
    }
  }

  lemma Begins(c: Config, world: World, d: nat, scene: Scene)
    requires Shows(world, d, scene) && May(d, scene, Begin)
    ensures CanMove(world, MoveOf(d, scene, Begin))
      && Shows(Moved(c, world, MoveOf(d, scene, Begin)), d, Done(c, d, scene, Begin))
  {
    var s', scene' := Moved(c, world, MoveOf(d, scene, Begin)).core, Done(c, d, scene, Begin);
    forall t | 0 <= t < |scene.marks|
      ensures ShowsTicket(s', d, scene', t)
    {
      assert ShowsTicket(world.core, d, scene, t);
    }
  }

  lemma Acts(c: Config, world: World, d: nat, scene: Scene, act: Act)
    requires Shows(world, d, scene) && May(d, scene, act) && (act.Register? && !scene.running ==> scene.marks == [])
    ensures CanMove(world, MoveOf(d, scene, act))
      && Shows(Moved(c, world, MoveOf(d, scene, act)), d, Done(c, d, scene, act))
  {
    match act
    case LookUp(_) => LooksUp(c, world, d, scene, act);
    case Write(_) => WritesRow(c, world, d, scene, act);
    case Register(_) => Registers(c, world, d, scene, act);
    case Work(w) =>
      if scene.pcs[w].Preparing? { Prepares(c, world, d, scene, act); }
      else if IsTaking(scene.pcs[w]) { Takes(c, world, d, scene, act); }
      else { ClearsInVain(c, world, d, scene, act); }
    case Begin => Begins(c, world, d, scene);
    case Engine(w, _) =>
      assert ShowsTicket(world.core, d, scene, scene.pcs[w].t);
      SameTickets(world.core, d, scene, Done(c, d, scene, act));
  }

  // ---------- telling a history ----------

  /** A history so far, with the scene that its last world shows. */
  ghost predicate Tells(c: Config, d: nat, run: seq<World>, moves: seq<Move>, scene: Scene) {
    IsHistory(c, run, moves) && Shows(run[|moves|], d, scene)
  }

  lemma Opening(c: Config, d: nat, pcs: seq<Pc>, row: DocRow) returns (run: seq<World>, moves: seq<Move>)
    requires forall w | 0 <= w < |pcs| :: pcs[w] == Idle
    ensures Tells(c, d, run, moves, Scene(pcs, false, [], [], [], row, []))
    ensures |run| == 1 && moves == [] && run[0].rows == map[d := row]
  {
    run, moves := [World(Initial(|pcs|), map[d := row], [])], [];
    assert Initial(|pcs|).workers == pcs;
  }

  /** One act more. */
  lemma Append(c: Config, d: nat, run: seq<World>, moves: seq<Move>, scene: Scene, act: Act)
    returns (run': seq<World>, moves': seq<Move>)
    requires Tells(c, d, run, moves, scene) && May(d, scene, act)
      && (act.Register? && !scene.running ==> scene.marks == [])
    ensures Tells(c, d, run', moves', Done(c, d, scene, act))
    ensures run <= run' && |run'| == |moves'| + 1 == |run| + 1 && moves' == moves + [MoveOf(d, scene, act)]
  {
    hide May, Done, MoveOf, CanMove, Moved, Shows;
    var m := MoveOf(d, scene, act);
    Acts(c, run[|moves|], d, scene, act);
    run', moves' := run + [Moved(c, run[|moves|], m)], moves + [m];
    forall k | 0 <= k < |moves'| ensures MovesTo(c, run'[k], moves'[k], run'[k + 1]) {
      if k < |moves| { assert MovesTo(c, run[k], moves[k], run[k + 1]); }
    }
  }

  /** The scene after a whole submission. */
  function Submitted(d: nat, scene: Scene, status: Status): Scene {
    var over := scene.(row := scene.row.(status := PENDING), open := scene.open + [Open(Single(d, status), 1, true)]);
    if !scene.running then over
    else over.(queue := scene.queue + [|scene.marks|], free := scene.free + [1],
               marks := scene.marks + [status == FAILED])
  }

  /** A submission with nothing in between. */
  lemma SubmitAll(c: Config, d: nat, run: seq<World>, moves: seq<Move>, scene: Scene, status: Status)
    returns (run': seq<World>, moves': seq<Move>)
    requires Tells(c, d, run, moves, scene) && status in {FAILED, PENDING} && scene.row.status == status
    requires !scene.running ==> scene.marks == []
    ensures Tells(c, d, run', moves', Submitted(d, scene, status))
    ensures run <= run' && |run'| == |moves'| + 1 == |run| + 3
    ensures var x := |scene.open|; moves' == moves + [LookedUp(Single(d, status)), Wrote(x), Registered(x, 1)]
  {
    hide Tells;
    var x, r := |scene.open|, Single(d, status);
    assert Single(d, FAILED).prior["report"] != Single(d, PENDING).prior["report"];
    hide Single;
    var looked := scene.(open := scene.open + [Open(r, 0, false)]);
    var written := scene.(row := scene.row.(status := PENDING), open := scene.open + [Open(r, 1, false)]);
    assert (scene.open + [Open(r, 0, false)])[x := Open(r, 1, false)] == scene.open + [Open(r, 1, false)];
    assert (scene.open + [Open(r, 1, false)])[x := Open(r, 1, true)] == scene.open + [Open(r, 1, true)];
    run', moves' := Append(c, d, run, moves, scene, LookUp(status));
    run', moves' := Append(c, d, run', moves', looked, Write(x));
    run', moves' := Append(c, d, run', moves', written, Register(x));
  }

  function Rode(c: Config, scene: Scene, w: nat, t: nat): Scene
    requires w < |scene.pcs| && scene.queue != [] && t < |scene.free|
  {
    scene.(pcs := scene.pcs[w := Onward(c, Preparing(t), scene.queue, scene.marks)], queue := scene.queue[1..],
           free := scene.free[t := 0])
  }

  /** Worker w takes ticket t from the queue and gets the engine. */
  lemma Ride(c: Config, d: nat, run: seq<World>, moves: seq<Move>, scene: Scene, w: nat, t: nat)
    returns (run': seq<World>, moves': seq<Move>)
    requires Tells(c, d, run, moves, scene) && scene.running && w < |scene.pcs| && scene.pcs[w].Idle?
    requires scene.queue != [] && scene.queue[0] == t && t < |scene.marks| == |scene.free| && scene.free[t] == 1
    ensures Tells(c, d, run', moves', Rode(c, scene, w, t))
    ensures run <= run' && moves <= moves' && |run'| == |moves'| + 1 == |run| + 4
  {
    hide Tells;
    var taken := scene.(pcs := scene.pcs[w := Loading(t)], queue := scene.queue[1..]);
    var loaded := taken.(pcs := scene.pcs[w := AwaitingSlot(t)]);
    var entered := taken.(pcs := scene.pcs[w := Preparing(t)], free := scene.free[t := 0]);
    var onward := Onward(c, Preparing(t), scene.queue, scene.marks);
    assert scene.pcs[w := Loading(t)][w := AwaitingSlot(t)] == scene.pcs[w := AwaitingSlot(t)];
    assert scene.pcs[w := AwaitingSlot(t)][w := Preparing(t)] == scene.pcs[w := Preparing(t)];
    assert scene.pcs[w := Preparing(t)][w := onward] == scene.pcs[w := onward];
    run', moves' := Append(c, d, run, moves, scene, Work(w));
    run', moves' := Append(c, d, run', moves', taken, Work(w));
    run', moves' := Append(c, d, run', moves', loaded, Work(w));
    run', moves' := Append(c, d, run', moves', entered, Work(w));
  }

  /** What a scene says of the last world. */
  lemma LastSeen(c: Config, d: nat, run: seq<World>, moves: seq<Move>, scene: Scene)
    requires Tells(c, d, run, moves, scene)
    ensures IsHistory(c, run, moves) && |run| == |moves| + 1
    ensures var world := run[|moves|];
      && world.rows == map[d := scene.row] && world.core.running == scene.running && world.core.queue == scene.queue
      && |world.core.items| == |scene.marks| && forall t | 0 <= t < |scene.marks| :: world.core.items[t].docId == d
  {
    WorldSeen(run[|moves|], d, scene);
  }

  lemma LastWorker(c: Config, d: nat, run: seq<World>, moves: seq<Move>, scene: Scene, w: nat)
    requires Tells(c, d, run, moves, scene) && w < |scene.pcs|
    requires !scene.pcs[w].Idle? && scene.pcs[w].t < |scene.marks|
    ensures |run| == |moves| + 1
    ensures run[|moves|].core.workers == scene.pcs && DocAt(run[|moves|].core, w) == d
    ensures scene.running && scene.pcs[w].Resolving? ==>
      Starts(run[|moves|], Processor(ResolveParameters(w, false), false), scene.pcs[w].t)
    ensures run[|moves|].core.Marked(scene.pcs[w].t) <==> scene.marks[scene.pcs[w].t]
  {
    WorkerSeen(run[|moves|], d, scene, w);
  }

  lemma WorkerSeen(world: World, d: nat, scene: Scene, w: nat)
    requires Shows(world, d, scene) && w < |scene.pcs|
    requires !scene.pcs[w].Idle? && scene.pcs[w].t < |scene.marks|
    ensures world.core.workers == scene.pcs && DocAt(world.core, w) == d
    ensures scene.running && scene.pcs[w].Resolving? ==>
      Starts(world, Processor(ResolveParameters(w, false), false), scene.pcs[w].t)
    ensures world.core.Marked(scene.pcs[w].t) <==> scene.marks[scene.pcs[w].t]
  {
    assert ShowsTicket(world.core, d, scene, scene.pcs[w].t);
  }

  lemma WorldSeen(world: World, d: nat, scene: Scene)
    requires Shows(world, d, scene)
    ensures world.rows == map[d := scene.row] && world.core.running == scene.running && world.core.queue == scene.queue
    ensures |world.core.items| == |scene.marks| && forall t | 0 <= t < |scene.marks| :: world.core.items[t].docId == d
  {
    forall t | 0 <= t < |scene.marks|
      ensures world.core.items[t].docId == d
    {
      assert ShowsTicket(world.core, d, scene, t);
    }
  }

  // ---------- the histories ----------

  /** A failed document with leftovers is submitted while the processor is not running. The submission is
      refused, but its row is PENDING from then on. Submitted again it is not marked, and the engine starts on it
      with all of the leftovers in place, whatever clearing calls exist. */
  lemma RefusedThenResubmitted(c: Config, d: nat) returns (run: seq<World>, moves: seq<Move>)
    ensures IsHistory(c, run, moves) && |moves| == 11 && run[0].rows == map[d := DocRow(FAILED, true, true)]
    ensures moves[2] == Registered(0, 1) && !run[3].core.running && run[3].rows == map[d := DocRow(PENDING, true, true)]
    ensures Starts(run[11], Processor(ResolveParameters(0, false), false), 0) && DocAt(run[11].core, 0) == d
    ensures run[11].rows == map[d := DocRow(PENDING, true, true)] && |run[11].core.items| == 1
  {
    hide IsHistory, Tells, Starts, Single, DocAt;
    var first := Scene([Idle], false, [], [], [], DocRow(FAILED, true, true), []);
    var refused := Submitted(d, first, FAILED);
    var begun := refused.(running := true);
    var again := Submitted(d, begun, PENDING);
    run, moves := Opening(c, d, [Idle], DocRow(FAILED, true, true));
    run, moves := SubmitAll(c, d, run, moves, first, FAILED);
    LastSeen(c, d, run, moves, refused);
    run, moves := Append(c, d, run, moves, refused, Begin);
    run, moves := SubmitAll(c, d, run, moves, begun, PENDING);
    run, moves := Ride(c, d, run, moves, again, 0, 0);
    LastSeen(c, d, run, moves, Rode(c, again, 0, 0));
    LastWorker(c, d, run, moves, Rode(c, again, 0, 0), 0);
  }

  /** The worker at pc with the one ticket, which is marked, and nothing cleared. */
  function Marked(c: Config, d: nat, pc: Pc): Scene {
    Scene([pc], true, [], [true], [0], DocRow(PENDING, true, true), [Open(Single(d, FAILED), 1, true)])
  }

  lemma MarkedTaken(c: Config, d: nat) returns (run: seq<World>, moves: seq<Move>)
    requires c.hasVectorStore && c.hasClear
    ensures Tells(c, d, run, moves, Marked(c, d, ClearingChunks(0)))
    ensures |run| == 9 == |moves| + 1 && run[0].rows == map[d := DocRow(FAILED, true, true)]
  {
    hide Tells, Single;
    var first := Scene([Idle], false, [], [], [], DocRow(FAILED, true, true), []);
    var queued := Submitted(d, first.(running := true), FAILED);
    assert Rode(c, queued, 0, 0) == Marked(c, d, ClearingChunks(0));
    run, moves := Opening(c, d, [Idle], DocRow(FAILED, true, true));
    run, moves := Append(c, d, run, moves, first, Begin);
    run, moves := SubmitAll(c, d, run, moves, first.(running := true), FAILED);
    run, moves := Ride(c, d, run, moves, queued, 0, 0);
  }

  /** A failed document is submitted, accepted and marked. Both clearing calls are made for it and raise, which the
      worker drops, and the engine starts on it with all of the leftovers in place. */
  lemma ClearingRaises(c: Config, d: nat) returns (run: seq<World>, moves: seq<Move>)
    requires c.hasVectorStore && c.hasClear
    ensures IsHistory(c, run, moves) && |moves| == 10 && run[0].rows == map[d := DocRow(FAILED, true, true)]
    ensures Called(run, moves, 0, 10, 0, ClearChunks) && Called(run, moves, 0, 10, 0, ClearState)
      && run[10].core.Marked(0)
    ensures Starts(run[10], Processor(ResolveParameters(0, false), false), 0) && DocAt(run[10].core, 0) == d
    ensures run[10].rows == map[d := DocRow(PENDING, true, true)]
  {
    hide IsHistory, Tells, Starts, Single, DocAt, State.Marked;
    var chunks := Marked(c, d, ClearingChunks(0));
    run, moves := MarkedTaken(c, d);
    LastWorker(c, d, run, moves, chunks, 0);
    run, moves := Append(c, d, run, moves, chunks, Work(0));
    assert Done(c, d, chunks, Work(0)) == Marked(c, d, ClearingState(0));
    assert Calls(run[8], moves[8], 0, ClearChunks);
    LastWorker(c, d, run, moves, Marked(c, d, ClearingState(0)), 0);
    run, moves := Append(c, d, run, moves, Marked(c, d, ClearingState(0)), Work(0));
    assert Done(c, d, Marked(c, d, ClearingState(0)), Work(0)) == Marked(c, d, Resolving(0));
    assert Calls(run[8], moves[8], 0, ClearChunks) && Calls(run[9], moves[9], 0, ClearState);
    LastSeen(c, d, run, moves, Marked(c, d, Resolving(0)));
    LastWorker(c, d, run, moves, Marked(c, d, Resolving(0)), 0);
  }

  /** A document whose row is PENDING is submitted twice, the second time with its first ticket still queued. Two
      workers get to the engine with it. */
  lemma TwoWorkersOneDocument(c: Config, d: nat) returns (run: seq<World>, moves: seq<Move>)
    ensures IsHistory(c, run, moves) && |moves| == 17 && run[0].rows == map[d := DocRow(PENDING, false, false)]
    ensures run[17].core.workers == [Processing(0), Processing(1)]
    ensures DocAt(run[17].core, 0) == d == DocAt(run[17].core, 1)
  {
    hide IsHistory, Tells, Starts, Single, DocAt, State.Marked;
    var first := Scene([Idle, Idle], false, [], [], [], DocRow(PENDING, false, false), []);
    var once := Submitted(d, first.(running := true), PENDING);
    var twice := Submitted(d, once, PENDING);
    var started := Rode(c, twice, 0, 0).(pcs := [Processing(0), Idle]);
    var both := Rode(c, started, 1, 1).(pcs := [Processing(0), Processing(1)]);
    run, moves := Opening(c, d, [Idle, Idle], DocRow(PENDING, false, false));
    run, moves := Append(c, d, run, moves, first, Begin);
    run, moves := SubmitAll(c, d, run, moves, first.(running := true), PENDING);
    run, moves := SubmitAll(c, d, run, moves, once, PENDING);
    run, moves := Ride(c, d, run, moves, twice, 0, 0);
    run, moves := Append(c, d, run, moves, Rode(c, twice, 0, 0), Work(0));
    assert Done(c, d, Rode(c, twice, 0, 0), Work(0)) == started;
    run, moves := Ride(c, d, run, moves, started, 1, 1);
    run, moves := Append(c, d, run, moves, Rode(c, started, 1, 1), Work(1));
    assert Done(c, d, Rode(c, started, 1, 1), Work(1)) == both;
    LastSeen(c, d, run, moves, both);
    LastWorker(c, d, run, moves, both, 0);
    LastWorker(c, d, run, moves, both, 1);
  }

  /** The worker at the engine with the one ticket, and a second submission under way. */
  function AtEngine(d: nat, row: DocRow, second: Open): Scene {
    Scene([Processing(0)], true, [], [false], [0], row, [Open(Single(d, PENDING), 1, true), second])
  }

  lemma LookedUpAndTaken(c: Config, d: nat) returns (run: seq<World>, moves: seq<Move>)
    ensures Tells(c, d, run, moves, AtEngine(d, DocRow(PENDING, false, false), Open(Single(d, PENDING), 0, false)))
    ensures |run| == 11 == |moves| + 1 && moves[4] == LookedUp(Single(d, PENDING))
  {
    hide Tells, Single;
    var first := Scene([Idle], false, [], [], [], DocRow(PENDING, false, false), []);
    var once := Submitted(d, first.(running := true), PENDING);
    var looked := once.(open := once.open + [Open(Single(d, PENDING), 0, false)]);
    run, moves := Opening(c, d, [Idle], DocRow(PENDING, false, false));
    run, moves := Append(c, d, run, moves, first, Begin);
    run, moves := SubmitAll(c, d, run, moves, first.(running := true), PENDING);
    run, moves := Append(c, d, run, moves, once, LookUp(PENDING));
    run, moves := Ride(c, d, run, moves, looked, 0, 0);
    run, moves := Append(c, d, run, moves, Rode(c, looked, 0, 0), Work(0));
    assert Done(c, d, Rode(c, looked, 0, 0), Work(0))
      == AtEngine(d, DocRow(PENDING, false, false), Open(Single(d, PENDING), 0, false));
  }

  /** A document is looked up while it is queued and its row is PENDING. A worker gets to the engine with it, which
      makes the row PROCESSING; then the submission resets the row and queues the document once more. */
  lemma ResetWhileWorkedOn(c: Config, d: nat) returns (run: seq<World>, moves: seq<Move>)
    ensures IsHistory(c, run, moves) && |moves| == 13
    ensures moves[4] == LookedUp(Single(d, PENDING)) && moves[11] == Wrote(1) && moves[12] == Registered(1, 1)
    ensures run[11].core.workers == [Processing(0)] && DocAt(run[11].core, 0) == d
    ensures run[11].rows == map[d := DocRow(PROCESSING, false, false)]
      && run[12].rows == map[d := DocRow(PENDING, false, false)]
    ensures run[13].core.queue == [1] && |run[13].core.items| == 2 && run[13].core.items[1].docId == d
  {
    hide IsHistory, Tells, Starts, Single, DocAt, State.Marked;
    var row, working, r := DocRow(PENDING, false, false), DocRow(PROCESSING, false, false), Single(d, PENDING);
    run, moves := LookedUpAndTaken(c, d);
    run, moves := Append(c, d, run, moves, AtEngine(d, row, Open(r, 0, false)), Engine(0, working));
    LastSeen(c, d, run, moves, AtEngine(d, working, Open(r, 0, false)));
    LastWorker(c, d, run, moves, AtEngine(d, working, Open(r, 0, false)), 0);
    run, moves := Append(c, d, run, moves, AtEngine(d, working, Open(r, 0, false)), Write(1));
    assert Done(c, d, AtEngine(d, working, Open(r, 0, false)), Write(1)) == AtEngine(d, row, Open(r, 1, false));
    LastSeen(c, d, run, moves, AtEngine(d, row, Open(r, 1, false)));
    run, moves := Append(c, d, run, moves, AtEngine(d, row, Open(r, 1, false)), Register(1));
    LastSeen(c, d, run, moves, Done(c, d, AtEngine(d, row, Open(r, 1, false)), Register(1)));
  }
}
