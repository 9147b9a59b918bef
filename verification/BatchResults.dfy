/** Delivering the results of a submitted batch: the handle's counters, the callback, the
    countdown to done, and one worker's handling of one queued item under every outcome of the
    calls it makes. */
module BatchResults {
  datatype Attempt = Returned | Raised

  datatype DocumentResult = DocumentResult(docId: nat, success: bool, skipped: bool)

  /** One invocation of on_result: the counts it was given, and whether the handle was already
      marked done when it ran. */
  datatype Call = Call(completed: nat, total: nat, result: DocumentResult, doneBefore: bool)

  /** A batch's handle, its countdown and the callback invocations so far. */
  datatype Progress = Progress(total: nat, completed: nat, failed: nat, remaining: int, done: bool, calls: seq<Call>)

  function Started(total: nat): Progress {
    Progress(total, 0, 0, total, total == 0, [])
  }

  /** Recording a result, telling the callback, and counting down. */
  function Fire(p: Progress, r: DocumentResult): Progress {
    Progress(p.total, p.completed + 1, if r.success then p.failed else p.failed + 1, p.remaining - 1,
             p.done || p.remaining - 1 <= 0,
             p.calls + [Call(p.completed + 1, p.total, r, p.done)])
  }

  /** How an invocation of the callback ends: it returns, it raises something that is logged and dropped, or it
      raises something of which not even the text can be had, so that logging it raises in turn. */
  datatype Callback = Quiet | Caught | Unrendered

  /** The callback's endings, invocation by invocation. */
  function CallbackAt(callbacks: seq<Callback>, k: nat): Callback { if k < |callbacks| then callbacks[k] else Quiet }

  /** Recording a result and telling the callback, without counting down. */
  function Told(p: Progress, r: DocumentResult): Progress {
    Fire(p, r).(remaining := p.remaining, done := p.done)
  }

  function Delivered(p: Progress, r: DocumentResult, ending: Callback): Progress {
    if ending.Unrendered? then Told(p, r) else Fire(p, r)
  }

  /** Results delivered one after the other. */
  function DeliveredAll(p: Progress, rs: seq<DocumentResult>, callbacks: seq<Callback>): Progress {
    if rs == [] then p
    else Delivered(DeliveredAll(p, rs[..|rs| - 1], callbacks), rs[|rs| - 1], CallbackAt(callbacks, |rs| - 1))
  }

  function FireAll(p: Progress, rs: seq<DocumentResult>): Progress {
    if rs == [] then p else Fire(FireAll(p, rs[..|rs| - 1]), rs[|rs| - 1])
  }

  function Failures(calls: seq<Call>): nat {
    if calls == [] then 0
    else Failures(calls[..|calls| - 1]) + if calls[|calls| - 1].result.success then 0 else 1
  }

  /** What holds of a batch between any two results: the callback has seen 1, 2, …, completed out
      of total, in that order and never after the batch was done; the countdown is what is
      missing; and the batch is done exactly when nothing is missing. */
  ghost predicate Consistent(p: Progress) {
    && p.completed == |p.calls| <= p.total
    && p.failed == Failures(p.calls)
    && p.remaining == p.total - p.completed
    && (p.done <==> p.completed == p.total)
    && (forall i | 0 <= i < |p.calls| ::
          p.calls[i].completed == i + 1 && p.calls[i].total == p.total && !p.calls[i].doneBefore)
  }

  lemma FireConsistent(p: Progress, r: DocumentResult)
    requires Consistent(p) && p.completed < p.total
    ensures Consistent(Fire(p, r))
  {
    var q := Fire(p, r);
    assert q.calls[..|q.calls| - 1] == p.calls;
  }

  lemma FireAllConsistent(total: nat, rs: seq<DocumentResult>)
    requires |rs| <= total
    ensures Consistent(FireAll(Started(total), rs))
    ensures FireAll(Started(total), rs).total == total
    ensures FireAll(Started(total), rs).completed == |rs|
    ensures forall i | 0 <= i < |rs| :: FireAll(Started(total), rs).calls[i].result == rs[i]
  {
    hide FireAll, Consistent, Started;
    FiringKeepsConsistent(total, rs);
    FiringCallsInOrder(total, rs);
  }

  lemma {:induction false} FiringKeepsConsistent(total: nat, rs: seq<DocumentResult>)
    requires |rs| <= total
    ensures Consistent(FireAll(Started(total), rs))
    ensures FireAll(Started(total), rs).total == total && FireAll(Started(total), rs).completed == |rs|
  {
    if rs != [] {
      hide Consistent, Failures;
      FiringKeepsConsistent(total, rs[..|rs| - 1]);
      FireConsistent(FireAll(Started(total), rs[..|rs| - 1]), rs[|rs| - 1]);
    }
  }

  lemma {:induction false} FiringCallsInOrder(total: nat, rs: seq<DocumentResult>)
    ensures |FireAll(Started(total), rs).calls| == |rs|
    ensures forall i | 0 <= i < |rs| :: FireAll(Started(total), rs).calls[i].result == rs[i]
  {
    if rs != [] { FiringCallsInOrder(total, rs[..|rs| - 1]); }
  }

  class BatchHandle {
    const total: nat
    var completed: nat
    var failed: nat
    var done: bool

    constructor (total: nat)
      ensures this.total == total && completed == 0 && failed == 0 && !done
    {
      this.total := total;
      completed, failed, done := 0, 0, false;
    }

    method RecordResult(result: DocumentResult)
      modifies `completed, `failed
      ensures completed == old(completed) + 1
      ensures failed == old(failed) + if result.success then 0 else 1
    {
      completed := completed + 1;
      if !result.success { failed := failed + 1; }
    }

    method MarkDone()
      modifies `done
      ensures done
    {
      done := true;
    }
  }

  class BatchRegistration {
    const handle: BatchHandle
    const preFailedDocIds: set<nat>
    var remaining: int
    ghost var calls: seq<Call>

    ghost function View(): Progress
      reads this, handle
    {
      Progress(handle.total, handle.completed, handle.failed, remaining, handle.done, calls)
    }

    constructor (handle: BatchHandle, preFailedDocIds: set<nat>, remaining: int)
      ensures this.handle == handle && this.preFailedDocIds == preFailedDocIds
      ensures this.remaining == remaining && calls == []
    {
      this.handle, this.preFailedDocIds, this.remaining := handle, preFailedDocIds, remaining;
      calls := [];
    }

    /** The result is recorded and handed to the callback, and counted down once unless an exception escapes
        from logging what the callback raised. */
    method FireResult(result: DocumentResult, ending: Callback) returns (attempt: Attempt)
      modifies this, handle
      ensures View() == Delivered(old(View()), result, ending)
      ensures attempt == if ending.Unrendered? then Raised else Returned
      ensures handle.completed == old(handle.completed) + 1
      ensures handle.failed == old(handle.failed) + if result.success then 0 else 1
      ensures calls == old(calls) + [Call(old(handle.completed) + 1, handle.total, result, old(handle.done))]
      ensures remaining == if attempt == Raised then old(remaining) else old(remaining) - 1
      ensures handle.done <==> old(handle.done) || (attempt == Returned && remaining <= 0)
    {
      handle.RecordResult(result);
      var raised := OnResult(handle.completed, handle.total, result, ending);
      if raised && ending.Unrendered? { return Raised; }
      remaining := remaining - 1;
      if remaining <= 0 { handle.MarkDone(); }
      return Returned;
    }

    /** The caller's callback. */
    method OnResult(completed: nat, total: nat, result: DocumentResult, ending: Callback) returns (raised: bool)
      modifies `calls
      ensures calls == old(calls) + [Call(completed, total, result, handle.done)]
      ensures raised == !ending.Quiet?
    {
      calls := calls + [Call(completed, total, result, handle.done)];
      raised := !ending.Quiet?;
    }
  }

  // ---------- one item in a worker's hands ----------

  datatype Loaded = LoadRaised | RowGone | Row

  /** The outcome of every call that the handling of one item may make. */
  datatype Outcomes = Outcomes(
    load: Loaded,
    engineRaises: bool,       // resolving the engine, before the handler's own try
    supported: bool,          // the engine can process staged documents
    preTryRaises: bool,       // resolving parameters and event time, before the handler's own try
    processRaises: bool,
    usageRaises: bool,        // collecting the usage after processing returned
    handlerRaises: bool,      // rendering the error inside the handler
    updateRaises: bool,
    clearChunksRaises: bool,
    clearStateRaises: bool,
    callbacks: seq<Callback>)  // the endings of the callback's invocations for this item

  /** The engine calls made for an item, in order. */
  datatype EngineCall = ClearChunks | ClearState | Process

  /** The ending of the callback's k-th invocation for the item. */
  predicate Unheard(o: Outcomes, k: nat) { CallbackAt(o.callbacks, k).Unrendered? }

  /** Re-loads the queued document. A missing row is reported here as skipped. */
  method LoadPendingDocument(reg: BatchRegistration?, docId: nat, o: Outcomes) returns (attempt: Attempt, found: bool)
    modifies reg, if reg == null then {} else {reg.handle}
    ensures attempt
      == if o.load == LoadRaised || (reg != null && o.load == RowGone && Unheard(o, 0)) then Raised else Returned
    ensures found == (o.load == Row)
    ensures reg != null && o.load == RowGone ==>
      reg.View() == Delivered(old(reg.View()), DocumentResult(docId, true, true), CallbackAt(o.callbacks, 0))
    ensures reg != null && o.load != RowGone ==> reg.View() == old(reg.View())
  {
    match o.load
    case LoadRaised => return Raised, false;
    case Row => return Returned, true;
    case RowGone =>
      if reg != null {
        attempt := reg.FireResult(DocumentResult(docId, true, true), CallbackAt(o.callbacks, 0));
        return attempt, false;
      }
      return Returned, false;
  }

  predicate Succeeds(o: Outcomes) {
    !o.engineRaises && o.supported && !o.preTryRaises && !o.processRaises && !o.usageRaises
  }

  /** A call whose exception is caught and dropped on the spot. */
  function Try(raises: bool): Attempt { if raises then Raised else Returned }

  /** What is cleared of an earlier attempt before a document is processed again. */
  function ClearingCalls(marked: bool, hasVectorStore: bool, hasClear: bool): seq<EngineCall> {
    if !marked then []
    else (if hasVectorStore then [ClearChunks] else []) + (if hasClear then [ClearState] else [])
  }

  /** The engine calls made for a loaded document: none if the engine cannot be had, otherwise the clearing calls
      that exist for a marked one, and then processing, unless resolving the parameters raises. */
  function CallsMade(marked: bool, hasVectorStore: bool, hasClear: bool, o: Outcomes): seq<EngineCall> {
    if o.engineRaises || !o.supported then []
    else ClearingCalls(marked, hasVectorStore, hasClear) + if o.preTryRaises then [] else [Process]
  }

  /** What processing a loaded document hands to the callback. A success whose callback raises something that
      cannot be logged is taken for a failure of processing and reported once more. */
  function ProcessFirings(docId: nat, o: Outcomes): seq<DocumentResult> {
    var failure := DocumentResult(docId, false, false);
    if o.engineRaises then []
    else if !o.supported then [failure]
    else if o.preTryRaises then []
    else if o.processRaises || o.usageRaises then (if o.handlerRaises then [] else [failure])
    else if Unheard(o, 0) && !o.handlerRaises then [DocumentResult(docId, true, false), failure]
    else [DocumentResult(docId, true, false)]
  }

  /** Whether an exception gets out of processing: one raised outside the handler's own try, or the last result
      was not counted. */
  predicate Escapes(docId: nat, o: Outcomes) {
    var firings := ProcessFirings(docId, o);
    firings == [] || Unheard(o, |firings| - 1)
  }

  /** Processes a loaded document. */
  method ProcessPendingItem(reg: BatchRegistration?, docId: nat, hasVectorStore: bool, hasClear: bool, o: Outcomes)
    returns (attempt: Attempt, engineCalls: seq<EngineCall>)
    modifies reg, if reg == null then {} else {reg.handle}
    ensures attempt == if Escapes(docId, if reg == null then o.(callbacks := []) else o) then Raised else Returned
    ensures reg != null ==> reg.View() == DeliveredAll(old(reg.View()), ProcessFirings(docId, o), o.callbacks)
    ensures engineCalls == CallsMade(reg != null && docId in reg.preFailedDocIds, hasVectorStore, hasClear, o)
  {
    hide Delivered, DeliveredAll, Fire;
    engineCalls, attempt := [], Returned;
    var failure, success := DocumentResult(docId, false, false), DocumentResult(docId, true, false);
    ghost var p := if reg == null then Started(0) else reg.View();
    DeliveredOne(p, failure, o.callbacks);
    DeliveredTwo(p, success, failure, o.callbacks);
    if o.engineRaises { return Raised, engineCalls; }
    if !o.supported {
      if reg != null {
        var dropped := Try(o.updateRaises);
        attempt := reg.FireResult(failure, CallbackAt(o.callbacks, 0));
      }
      return attempt, engineCalls;
    }
    if reg != null && docId in reg.preFailedDocIds {
      var dropped := Returned;
      if hasVectorStore { engineCalls, dropped := engineCalls + [ClearChunks], Try(o.clearChunksRaises); }
      if hasClear { engineCalls, dropped := engineCalls + [ClearState], Try(o.clearStateRaises); }
    }
    if o.preTryRaises { return Raised, engineCalls; }
    engineCalls := engineCalls + [Process];
    var fired := 0;
    if !o.processRaises && !o.usageRaises {
      if reg != null {
        attempt := reg.FireResult(success, CallbackAt(o.callbacks, 0));
        fired := 1;
      }
      if attempt == Returned { return attempt, engineCalls; }
    }
    if o.handlerRaises { return Raised, engineCalls; }
    var dropped := Try(o.updateRaises);
    attempt := Returned;
    if reg != null { attempt := reg.FireResult(failure, CallbackAt(o.callbacks, fired)); }
    return attempt, engineCalls;
  }

  lemma DeliveredOne(p: Progress, r: DocumentResult, callbacks: seq<Callback>)
    ensures DeliveredAll(p, [], callbacks) == p
    ensures DeliveredAll(p, [r], callbacks) == Delivered(p, r, CallbackAt(callbacks, 0))
  {
  }

  lemma DeliveredTwo(p: Progress, q: DocumentResult, r: DocumentResult, callbacks: seq<Callback>)
    ensures DeliveredAll(p, [q], callbacks) == Delivered(p, q, CallbackAt(callbacks, 0))
    ensures DeliveredAll(p, [q, r], callbacks)
         == Delivered(Delivered(p, q, CallbackAt(callbacks, 0)), r, CallbackAt(callbacks, 1))
  {
    assert [q, r][..1] == [q];
  }

  lemma DeliveredNext(p: Progress, rs: seq<DocumentResult>, r: DocumentResult, callbacks: seq<Callback>)
    ensures DeliveredAll(p, rs + [r], callbacks)
      == Delivered(DeliveredAll(p, rs, callbacks), r, CallbackAt(callbacks, |rs|))
  {
    assert (rs + [r])[..|rs|] == rs;
  }

  /** The one result that an item of a batch gets. */
  function ItemResult(docId: nat, o: Outcomes): DocumentResult {
    match o.load
    case LoadRaised => DocumentResult(docId, false, false)
    case RowGone => DocumentResult(docId, true, true)
    case Row => DocumentResult(docId, Succeeds(o), false)
  }

  /** All that the callback is handed for an item of a batch. */
  function ItemFirings(docId: nat, o: Outcomes): seq<DocumentResult> {
    var failure := DocumentResult(docId, false, false);
    match o.load
    case LoadRaised => [failure]
    case RowGone =>
      if Unheard(o, 0) then [DocumentResult(docId, true, true), failure] else [DocumentResult(docId, true, true)]
    case Row => if Escapes(docId, o) then ProcessFirings(docId, o) + [failure] else ProcessFirings(docId, o)
  }

  function ItemCalls(marked: bool, hasVectorStore: bool, hasClear: bool, o: Outcomes): seq<EngineCall> {
    if o.load == Row then CallsMade(marked, hasVectorStore, hasClear, o) else []
  }

  /** A worker's handling of one dequeued item: whatever the calls do, nothing is raised into the worker loop. An
      item of a batch fires exactly one result, unless the callback raises something that cannot be logged. */
  method HandleItem(reg: BatchRegistration?, docId: nat, hasVectorStore: bool, hasClear: bool, o: Outcomes)
    returns (engineCalls: seq<EngineCall>)
    modifies reg, if reg == null then {} else {reg.handle}
    ensures reg != null ==> reg.View() == DeliveredAll(old(reg.View()), ItemFirings(docId, o), o.callbacks)
    ensures reg != null && !Unheard(o, 0) ==> reg.View() == Fire(old(reg.View()), ItemResult(docId, o))
    ensures engineCalls == ItemCalls(reg != null && docId in reg.preFailedDocIds, hasVectorStore, hasClear, o)
    ensures var marked := reg != null && docId in reg.preFailedDocIds;
      engineCalls == if o.load != Row || o.engineRaises || !o.supported then []
                     else (if marked && hasVectorStore then [ClearChunks] else [])
                          + (if marked && hasClear then [ClearState] else [])
                          + (if o.preTryRaises then [] else [Process])
  {
    hide Delivered, DeliveredAll, ProcessFirings;
    engineCalls := [];
    var failure := DocumentResult(docId, false, false);
    ghost var p := if reg == null then Started(0) else reg.View();
    DeliveredOne(p, failure, o.callbacks);
    DeliveredTwo(p, DocumentResult(docId, true, true), failure, o.callbacks);
    DeliveredNext(p, ProcessFirings(docId, o), failure, o.callbacks);
    FiresOnceExactly(p, docId, o);
    var loading, found := LoadPendingDocument(reg, docId, o);
    if loading == Raised {
      if reg != null {
        var dropped := reg.FireResult(failure, CallbackAt(o.callbacks, if o.load == RowGone then 1 else 0));
      }
      return;
    }
    if !found { return; }
    var processing;
    processing, engineCalls := ProcessPendingItem(reg, docId, hasVectorStore, hasClear, o);
    if processing == Raised {
      if reg != null {
        var dropped := Try(o.updateRaises);
        dropped := reg.FireResult(failure, CallbackAt(o.callbacks, |ProcessFirings(docId, o)|));
      }
    }
  }

  /** The handling of an item comes to one result, counted once, exactly when the exception, if any, of the
      callback's first invocation can be logged. */
  lemma FiresOnceExactly(p: Progress, docId: nat, o: Outcomes)
    ensures DeliveredAll(p, ItemFirings(docId, o), o.callbacks) == Fire(p, ItemResult(docId, o)) <==> !Unheard(o, 0)
  {
    var rs, failure := ItemFirings(docId, o), DocumentResult(docId, false, false);
    DeliveredOne(p, rs[0], o.callbacks);
    if |rs| == 1 { assert rs == [rs[0]]; }
    CallsDelivered(p, rs, o.callbacks);
  }

  /** All that the callback is handed for an item: first the item's result, a success exactly for a missing row,
      reported as skipped, or when nothing raised on the way through a supporting engine; then, as long as what the
      callback raises cannot be logged, up to two failures, depending on how far the exception travels. */
  lemma FiringsMeaning(docId: nat, o: Outcomes)
    ensures var rs := ItemFirings(docId, o);
      var unheard := |o.callbacks| > 0 && o.callbacks[0] == Unrendered;
      var again := |o.callbacks| > 1 && o.callbacks[1] == Unrendered;
      var fine := o.load == Row && !o.engineRaises && o.supported && !o.preTryRaises && !o.processRaises
                  && !o.usageRaises;
      var outermost := o.load == LoadRaised || (o.load == Row &&
        (o.engineRaises || (o.supported && (o.preTryRaises
          || (o.handlerRaises && (o.processRaises || o.usageRaises))))));
      && |rs| == (if !unheard || outermost then 1 else if fine && !o.handlerRaises && again then 3 else 2)
      && rs[0] == DocumentResult(docId, o.load == RowGone || fine, o.load == RowGone)
      && forall k | 1 <= k < |rs| :: rs[k] == DocumentResult(docId, false, false)
  {
    var failure, success := DocumentResult(docId, false, false), DocumentResult(docId, true, false);
    assert CallbackAt(o.callbacks, 1) == Unrendered <==> |o.callbacks| > 1 && o.callbacks[1] == Unrendered;
    if o.load == Row && Escapes(docId, o) {
      assert ItemFirings(docId, o) == ProcessFirings(docId, o) + [failure];
    }
  }

  lemma {:induction false} CallsDelivered(p: Progress, rs: seq<DocumentResult>, callbacks: seq<Callback>)
    ensures |DeliveredAll(p, rs, callbacks).calls| == |p.calls| + |rs|
  {
    if rs != [] { CallsDelivered(p, rs[..|rs| - 1], callbacks); }
  }

  /** A batch of one document, processed without fault, whose callback keeps raising what cannot be logged: it is
      told of one success and two failures, and the batch never gets done. */
  lemma CallbackNeverHeard(o: Outcomes)
    requires o.load == Row && Succeeds(o) && !o.handlerRaises && o.callbacks == [Unrendered, Unrendered, Unrendered]
    ensures var p := DeliveredAll(Started(1), ItemFirings(0, o), o.callbacks);
      p.completed == 3 > p.total && p.failed == 2 && p.remaining == 1 && !p.done
  {
    var success, failure := DocumentResult(0, true, false), DocumentResult(0, false, false);
    assert ItemFirings(0, o) == [success, failure] + [failure];
    DeliveredNext(Started(1), [success, failure], failure, o.callbacks);
    DeliveredTwo(Started(1), success, failure, o.callbacks);
  }
}
