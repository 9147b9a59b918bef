/** Submitting a batch: which of the three lists each input document lands in, which rows are marked
    for clearing, and the registration that starts from them. */
module Submission {
  import opened Options
  import opened BatchResults
  import opened PendingProcessor

  datatype Status = PENDING | PROCESSING | COMPLETED | FAILED | ARCHIVED

  /** A submitted document. An empty external id counts as none. */
  datatype Input = Input(externalId: string, content: string)

  /** A document row as held in memory. */
  class Document {
    const id: nat
    const externalId: string
    var status: Status
    var content: string

    constructor (id: nat, input: Input)
      ensures this.id == id && externalId == input.externalId && status == PENDING && content == input.content
    {
      this.id, externalId, status, content := id, input.externalId, PENDING, input.content;
    }

    /** Back to PENDING with the submitted content. */
    method Reset(input: Input)
      modifies this
      ensures status == PENDING && content == input.content
    {
      status, content := PENDING, input.content;
    }
  }

  /** input is the position of the submitted document that this row stands for. */
  datatype Entry = Entry(input: nat, doc: Document)

  datatype Fate = Repeated | Skipped | WriteFailed | Queued

  /** An external id seen earlier in the batch. */
  predicate IsRepeat(inputs: seq<Input>, i: nat)
    requires i < |inputs|
  {
    inputs[i].externalId != "" && exists j :: 0 <= j < i && inputs[j].externalId == inputs[i].externalId
  }

  /** The existing rows that are left alone. */
  predicate LeftAlone(status: Status, reprocessArchived: bool) {
    status == COMPLETED || status == PROCESSING || (status == ARCHIVED && !reprocessArchived)
  }

  /** What becomes of input i, given the statuses that the existing rows had before the call and
      whether the write of its row raises. */
  function FateOf(inputs: seq<Input>, prior: map<string, Status>, reprocessArchived: bool, raises: seq<bool>,
                  i: nat): Fate
    requires i < |inputs| == |raises|
  {
    if IsRepeat(inputs, i) then Repeated
    else if inputs[i].externalId in prior && LeftAlone(prior[inputs[i].externalId], reprocessArchived) then Skipped
    else if raises[i] then WriteFailed
    else Queued
  }

  /** The first n inputs with the given fate, in order. */
  ghost function Chosen(inputs: seq<Input>, prior: map<string, Status>, reprocessArchived: bool, raises: seq<bool>,
                        n: nat, fate: Fate): seq<nat>
    requires n <= |inputs| == |raises|
  {
    if n == 0 then []
    else if FateOf(inputs, prior, reprocessArchived, raises, n - 1) == fate
    then Chosen(inputs, prior, reprocessArchived, raises, n - 1, fate) + [n - 1]
    else Chosen(inputs, prior, reprocessArchived, raises, n - 1, fate)
  }

  /** The choice is increasing and holds exactly the inputs of that fate. */
  lemma {:induction false} ChosenExact(inputs: seq<Input>, prior: map<string, Status>, reprocessArchived: bool,
                                       raises: seq<bool>,
                                       n: nat, fate: Fate)
    requires n <= |inputs| == |raises|
    ensures var c := Chosen(inputs, prior, reprocessArchived, raises, n, fate);
      && (forall a, b | 0 <= a < b < |c| :: c[a] < c[b])
      && (forall i: nat :: i in c <==> i < n && FateOf(inputs, prior, reprocessArchived, raises, i) == fate)
  {
    if n > 0 {
      ChosenExact(inputs, prior, reprocessArchived, raises, n - 1, fate);
      var c := Chosen(inputs, prior, reprocessArchived, raises, n, fate);
      var before := Chosen(inputs, prior, reprocessArchived, raises, n - 1, fate);
      forall a, b | 0 <= a < b < |c| ensures c[a] < c[b] {
        assert c[a] == before[a] && before[a] in before;
      }
    }
  }

  /** Every input has exactly one fate, so the lists add up. */
  lemma {:induction false} FatesAddUp(inputs: seq<Input>, prior: map<string, Status>, reprocessArchived: bool,
                                      raises: seq<bool>, n: nat)
    requires n <= |inputs| == |raises|
    ensures |Chosen(inputs, prior, reprocessArchived, raises, n, Queued)|
          + |Chosen(inputs, prior, reprocessArchived, raises, n, WriteFailed)|
          + |Chosen(inputs, prior, reprocessArchived, raises, n, Skipped)|
          + |Chosen(inputs, prior, reprocessArchived, raises, n, Repeated)| == n
  {
    if n > 0 { FatesAddUp(inputs, prior, reprocessArchived, raises, n - 1); }
  }

  function InputsOf(entries: seq<Entry>): seq<nat> { seq(|entries|, k requires 0 <= k < |entries| => entries[k].input) }

  function IdsOf(entries: seq<Entry>): seq<nat> { seq(|entries|, k requires 0 <= k < |entries| => entries[k].doc.id) }

  /** The status of an existing row that comes back after having failed or been archived. */
  predicate NeedsClearing(status: Status, reprocessArchived: bool) {
    status == FAILED || (status == ARCHIVED && reprocessArchived)
  }

  /** One document that is not a repeat: left alone, or written as PENDING with the new content. */
  method Dispatch(input: Input, existing: map<string, Document>, reprocessArchived: bool, raises: bool, id: nat)
    returns (fate: Fate, row: Document, clear: bool)
    modifies if input.externalId in existing then {existing[input.externalId]} else {}
    ensures input.externalId in existing ==> row == existing[input.externalId]
    ensures input.externalId !in existing ==> fresh(row) && row.id == id && row.externalId == input.externalId
    ensures input.externalId in existing ==> match old(existing[input.externalId].status)
      case COMPLETED => fate == Skipped && !clear
      case PROCESSING => fate == Skipped && !clear
      case ARCHIVED => clear == reprocessArchived &&
        fate == (if !reprocessArchived then Skipped else if raises then WriteFailed else Queued)
      case FAILED => clear && fate == (if raises then WriteFailed else Queued)
      case PENDING => !clear && fate == (if raises then WriteFailed else Queued)
    ensures input.externalId !in existing ==> !clear && fate == (if raises then WriteFailed else Queued)
    ensures fate != Skipped ==> row.status == PENDING && row.content == input.content
    ensures fate == Skipped ==> row.status == old(row.status) && row.content == old(row.content)
  {
    clear := false;
    if input.externalId in existing {
      row := existing[input.externalId];
      if row.status == COMPLETED || row.status == PROCESSING || (row.status == ARCHIVED && !reprocessArchived) {
        fate := Skipped;
        return;
      }
      clear := row.status == FAILED || row.status == ARCHIVED;
      row.Reset(input);
    } else {
      row := new Document(id, input);
    }
    fate := if raises then WriteFailed else Queued;
  }

  /** Row for input i: the existing one with its external id, or the one created for it. */
  ghost predicate StandsFor(inputs: seq<Input>, existing: map<string, Document>, ids: seq<nat>, e: Entry)
    requires |ids| == |inputs|
  {
    && e.input < |inputs| && e.doc.externalId == inputs[e.input].externalId
    && (if inputs[e.input].externalId in existing then e.doc == existing[inputs[e.input].externalId]
        else e.doc.id == ids[e.input])
  }

  /** The inputs whose existing row is marked for clearing. */
  ghost predicate IsMarked(inputs: seq<Input>, prior: map<string, Status>, reprocessArchived: bool, i: nat)
    requires i < |inputs|
  {
    !IsRepeat(inputs, i) && inputs[i].externalId in prior
      && NeedsClearing(prior[inputs[i].externalId], reprocessArchived)
  }

  /** The ids marked for clearing among the first n inputs. */
  ghost function MarkedIds(inputs: seq<Input>, prior: map<string, Status>, idOf: map<string, nat>,
                           reprocessArchived: bool, n: nat): set<nat>
    requires n <= |inputs| && prior.Keys == idOf.Keys
  {
    if n == 0 then {}
    else MarkedIds(inputs, prior, idOf, reprocessArchived, n - 1)
         + if IsMarked(inputs, prior, reprocessArchived, n - 1) then {idOf[inputs[n - 1].externalId]} else {}
  }

  lemma {:induction false} MarkedIdsExact(inputs: seq<Input>, prior: map<string, Status>, idOf: map<string, nat>,
                                          reprocessArchived: bool, n: nat, d: nat)
    requires n <= |inputs| && prior.Keys == idOf.Keys
    ensures d in MarkedIds(inputs, prior, idOf, reprocessArchived, n) <==>
      exists i :: 0 <= i < n && IsMarked(inputs, prior, reprocessArchived, i) && idOf[inputs[i].externalId] == d
  {
    if n > 0 { MarkedIdsExact(inputs, prior, idOf, reprocessArchived, n - 1, d); }
  }

  /** The row holds the submitted content and waits to be processed. */
  ghost predicate Refreshed(inputs: seq<Input>, e: Entry)
    reads e.doc
  {
    e.input < |inputs| && e.doc.status == PENDING && e.doc.content == inputs[e.input].content
  }

  /** What a submission depends on: the documents, what the lookup found, which row writes raise, the
      ids of created rows, and the flag. */
  datatype Request = Request(inputs: seq<Input>, prior: map<string, Status>, idOf: map<string, nat>,
                             raises: seq<bool>, ids: seq<nat>, reprocessArchived: bool)
  {
    predicate Valid() { |inputs| == |raises| == |ids| && prior.Keys == idOf.Keys && "" !in prior }

    function Fate(i: nat): Fate
      requires Valid() && i < |inputs|
    {
      FateOf(inputs, prior, reprocessArchived, raises, i)
    }

    ghost function WithFate(n: nat, fate: Fate): seq<nat>
      requires Valid() && n <= |inputs|
    {
      Chosen(inputs, prior, reprocessArchived, raises, n, fate)
    }
  }

  datatype Lists = Lists(pending: seq<Entry>, preFailed: seq<Entry>, preCompleted: seq<Entry>, marked: set<nat>)

  /** The lists hold the first n inputs, each in the list of its fate, in order. */
  ghost predicate Sorted(r: Request, n: nat, l: Lists)
    requires r.Valid() && n <= |r.inputs|
  {
    && InputsOf(l.pending) == r.WithFate(n, Queued)
    && InputsOf(l.preFailed) == r.WithFate(n, WriteFailed)
    && InputsOf(l.preCompleted) == r.WithFate(n, Skipped)
    && l.marked == MarkedIds(r.inputs, r.prior, r.idOf, r.reprocessArchived, n)
  }

  function Place(l: Lists, fate: Fate, e: Entry, clear: bool): Lists {
    var marked := if clear then l.marked + {e.doc.id} else l.marked;
    match fate
    case Skipped => l.(preCompleted := l.preCompleted + [e], marked := marked)
    case WriteFailed => l.(preFailed := l.preFailed + [e], marked := marked)
    case _ => l.(pending := l.pending + [e], marked := marked)
  }

  lemma AppendInputs(entries: seq<Entry>, e: Entry)
    ensures InputsOf(entries + [e]) == InputsOf(entries) + [e.input]
  {
  }

  lemma PlaceSorted(r: Request, n: nat, l: Lists, fate: Fate, e: Entry, clear: bool)
    requires r.Valid() && n < |r.inputs| && Sorted(r, n, l) && e.input == n
    requires !IsRepeat(r.inputs, n) && fate == FateOf(r.inputs, r.prior, r.reprocessArchived, r.raises, n)
    requires clear <==> IsMarked(r.inputs, r.prior, r.reprocessArchived, n)
    requires clear ==> e.doc.id == r.idOf[r.inputs[n].externalId]
    ensures Sorted(r, n + 1, Place(l, fate, e, clear))
  {
    AppendInputs(l.pending, e);
    AppendInputs(l.preFailed, e);
    AppendInputs(l.preCompleted, e);
  }

  /** The external ids among the first n inputs. */
  ghost predicate SeenIds(inputs: seq<Input>, n: nat, seen: set<string>)
    requires n <= |inputs|
  {
    forall e :: e in seen <==> e != "" && exists j :: 0 <= j < n && inputs[j].externalId == e
  }

  ghost predicate IsLookup(r: Request, existing: map<string, Document>)
    requires r.Valid()
  {
    r.prior.Keys == existing.Keys && forall e | e in existing ::
      existing[e].externalId == e && existing[e].id == r.idOf[e]
  }

  /** The rows whose external id has not come up are as the lookup found them. */
  ghost predicate Untouched(r: Request, existing: map<string, Document>, seen: set<string>)
    requires r.Valid() && IsLookup(r, existing)
    reads existing.Values
  {
    forall e | e in existing && e !in seen :: existing[e].status == r.prior[e]
  }

  /** Every entry stands for its input, among the first n. */
  ghost predicate RowsKept(r: Request, existing: map<string, Document>, n: nat, l: Lists)
    requires r.Valid()
  {
    && (forall e | e in l.pending :: e.input < n && StandsFor(r.inputs, existing, r.ids, e))
    && (forall e | e in l.preFailed :: e.input < n && StandsFor(r.inputs, existing, r.ids, e))
    && (forall e | e in l.preCompleted :: e.input < n && StandsFor(r.inputs, existing, r.ids, e))
  }

  /** Every pending row holds the submitted content. */
  ghost predicate AllRefreshed(inputs: seq<Input>, entries: seq<Entry>)
    reads set e | e in entries :: e.doc
  {
    forall e | e in entries :: Refreshed(inputs, e)
  }

  lemma PlaceKept(r: Request, existing: map<string, Document>, n: nat, l: Lists, fate: Fate, e: Entry, clear: bool)
    requires r.Valid() && RowsKept(r, existing, n, l) && e.input == n && StandsFor(r.inputs, existing, r.ids, e)
    ensures RowsKept(r, existing, n + 1, Place(l, fate, e, clear))
  {
  }

  lemma SeenNext(inputs: seq<Input>, n: nat, seen: set<string>)
    requires n < |inputs| && SeenIds(inputs, n, seen)
    ensures IsRepeat(inputs, n) <==> inputs[n].externalId in seen
    ensures SeenIds(inputs, n + 1, if inputs[n].externalId == "" then seen else seen + {inputs[n].externalId})
  {
  }

  lemma RepeatSorted(r: Request, n: nat, l: Lists)
    requires r.Valid() && n < |r.inputs| && Sorted(r, n, l) && IsRepeat(r.inputs, n)
    ensures Sorted(r, n + 1, l)
  {
  }

  /** The row of a document that is not a repeat belongs to no earlier entry. */
  lemma OtherRow(r: Request, existing: map<string, Document>, n: nat, seen: set<string>, e: Entry, row: Document)
    requires r.Valid() && IsLookup(r, existing) && n < |r.inputs| && SeenIds(r.inputs, n, seen)
    requires e.input < n && StandsFor(r.inputs, existing, r.ids, e)
    requires r.inputs[n].externalId !in seen && r.inputs[n].externalId in existing
      && row == existing[r.inputs[n].externalId]
    ensures e.doc != row
  {
  }

  lemma FateIs(r: Request, n: nat, fate: Fate)
    requires r.Valid() && n < |r.inputs| && !IsRepeat(r.inputs, n)
    requires var e := r.inputs[n].externalId;
      fate == if e in r.prior && LeftAlone(r.prior[e], r.reprocessArchived) then Skipped
              else if r.raises[n] then WriteFailed else Queued
    ensures fate == FateOf(r.inputs, r.prior, r.reprocessArchived, r.raises, n)
  {
  }

  lemma EntriesKnown(r: Request, existing: map<string, Document>, n: nat, l: Lists)
    requires r.Valid() && RowsKept(r, existing, n, l)
    ensures forall e | e in l.pending + l.preFailed :: e.input < n && StandsFor(r.inputs, existing, r.ids, e)
  {
  }

  /** Sorts one document that is not a repeat into the lists. */
  method SortOne(r: Request, existing: map<string, Document>, n: nat, l: Lists, ghost seen: set<string>)
    returns (l': Lists)
    requires r.Valid() && IsLookup(r, existing) && n < |r.inputs|
    requires SeenIds(r.inputs, n, seen) && Untouched(r, existing, seen) && !IsRepeat(r.inputs, n)
    requires Sorted(r, n, l) && RowsKept(r, existing, n, l) && AllRefreshed(r.inputs, l.pending + l.preFailed)
    modifies existing.Values
    ensures Sorted(r, n + 1, l') && RowsKept(r, existing, n + 1, l')
    ensures AllRefreshed(r.inputs, l'.pending + l'.preFailed)
    ensures Untouched(r, existing, seen + {r.inputs[n].externalId})
    ensures forall e | e in existing && (e != r.inputs[n].externalId || LeftAlone(r.prior[e], r.reprocessArchived)) ::
      existing[e].status == old(existing[e].status) && existing[e].content == old(existing[e].content)
  {
    hide Sorted, FateOf, RowsKept, StandsFor;
    var input := r.inputs[n];
    SeenNext(r.inputs, n, seen);
    var fate, row, clear := Dispatch(input, existing, r.reprocessArchived, r.raises[n], r.ids[n]);
    FateIs(r, n, fate);
    EntriesKnown(r, existing, n, l);
    forall e | e in l.pending + l.preFailed ensures Refreshed(r.inputs, e) {
      if input.externalId in existing { OtherRow(r, existing, n, seen, e, row); }
    }
    PlaceSorted(r, n, l, fate, Entry(n, row), clear);
    PlaceKept(r, existing, n, l, fate, Entry(n, row), clear);
    l' := Place(l, fate, Entry(n, row), clear);
  }

  lemma NothingSorted(r: Request, existing: map<string, Document>, l: Lists)
    requires r.Valid() && l == Lists([], [], [], {})
    ensures Sorted(r, 0, l) && RowsKept(r, existing, 0, l) && AllRefreshed(r.inputs, l.pending + l.preFailed)
  {
  }

  lemma KeptLonger(r: Request, existing: map<string, Document>, n: nat, l: Lists)
    requires r.Valid() && RowsKept(r, existing, n, l)
    ensures RowsKept(r, existing, n + 1, l)
  {
  }

  lemma KeptMeans(r: Request, existing: map<string, Document>, l: Lists, x: Entry)
    requires r.Valid() && RowsKept(r, existing, |r.inputs|, l) && AllRefreshed(r.inputs, l.pending + l.preFailed)
    requires x in l.pending + l.preFailed + l.preCompleted
    ensures x.input < |r.inputs| && x.doc.externalId == r.inputs[x.input].externalId
    ensures if x.doc.externalId in existing then x.doc == existing[x.doc.externalId] else x.doc.id == r.ids[x.input]
    ensures x in l.pending + l.preFailed ==> x.doc.status == PENDING && x.doc.content == r.inputs[x.input].content
  {
    assert x in l.pending || x in l.preFailed || x in l.preCompleted;
  }

  /** Sorts the submitted documents into the three lists. An entry is the existing row of its external id wherever
      there is one. Rows of the pending and failed lists hold the submitted content; existing rows that are left
      alone, or that no document names, are as they were. */
  method SortDocuments(r: Request, existing: map<string, Document>) returns (l: Lists)
    requires r.Valid() && IsLookup(r, existing) && Untouched(r, existing, {})
    modifies existing.Values
    ensures Sorted(r, |r.inputs|, l) && RowsKept(r, existing, |r.inputs|, l)
    ensures forall x | x in l.pending + l.preFailed + l.preCompleted ::
      && x.input < |r.inputs| && x.doc.externalId == r.inputs[x.input].externalId
      && (if x.doc.externalId in existing then x.doc == existing[x.doc.externalId] else x.doc.id == r.ids[x.input])
      && (x in l.pending + l.preFailed ==> x.doc.status == PENDING && x.doc.content == r.inputs[x.input].content)
    ensures forall e | e in existing ::
      r.prior[e] == COMPLETED || r.prior[e] == PROCESSING || (r.prior[e] == ARCHIVED && !r.reprocessArchived)
        || (forall i | 0 <= i < |r.inputs| :: r.inputs[i].externalId != e)
      ==> existing[e].status == old(existing[e].status) && existing[e].content == old(existing[e].content)
  {
    hide Sorted, RowsKept, AllRefreshed;
    l := Lists([], [], [], {});
    NothingSorted(r, existing, l);
    var seen: set<string> := {};
    for i := 0 to |r.inputs|
      invariant SeenIds(r.inputs, i, seen) && Untouched(r, existing, seen)
      invariant Sorted(r, i, l) && RowsKept(r, existing, i, l) && AllRefreshed(r.inputs, l.pending + l.preFailed)
      invariant forall e | e in existing && (e !in seen || LeftAlone(r.prior[e], r.reprocessArchived)) ::
        existing[e].status == old(existing[e].status) && existing[e].content == old(existing[e].content)
    {
      SeenNext(r.inputs, i, seen);
      var externalId := r.inputs[i].externalId;
      if externalId in seen {
        RepeatSorted(r, i, l);
        KeptLonger(r, existing, i, l);
        assert seen + {externalId} == seen;
        continue;
      }
      l := SortOne(r, existing, i, l, seen);
      if externalId != "" { seen := seen + {externalId}; }
    }
    forall x | x in l.pending + l.preFailed + l.preCompleted
      ensures x.input < |r.inputs| && x.doc.externalId == r.inputs[x.input].externalId
      ensures if x.doc.externalId in existing then x.doc == existing[x.doc.externalId] else x.doc.id == r.ids[x.input]
      ensures x in l.pending + l.preFailed ==> x.doc.status == PENDING && x.doc.content == r.inputs[x.input].content
    {
      KeptMeans(r, existing, l, x);
    }
  }

  /** Every document that is not a repeat is in exactly one of the three lists: each list is
      increasing in the input positions and holds exactly the inputs of its fate, and the three
      together are as many as the documents that are not repeats. */
  lemma ListsPartition(r: Request, l: Lists)
    requires r.Valid() && Sorted(r, |r.inputs|, l)
    ensures forall i: nat ::
      && (i in InputsOf(l.pending) <==> i < |r.inputs| && r.Fate(i) == Queued)
      && (i in InputsOf(l.preFailed) <==> i < |r.inputs| && r.Fate(i) == WriteFailed)
      && (i in InputsOf(l.preCompleted) <==> i < |r.inputs| && r.Fate(i) == Skipped)
    ensures |l.pending| + |l.preFailed| + |l.preCompleted| == |r.inputs| - |r.WithFate(|r.inputs|, Repeated)|
    ensures forall i: nat :: i in r.WithFate(|r.inputs|, Repeated) <==> i < |r.inputs| && IsRepeat(r.inputs, i)
  {
    ChosenExact(r.inputs, r.prior, r.reprocessArchived, r.raises, |r.inputs|, Queued);
    ChosenExact(r.inputs, r.prior, r.reprocessArchived, r.raises, |r.inputs|, WriteFailed);
    ChosenExact(r.inputs, r.prior, r.reprocessArchived, r.raises, |r.inputs|, Skipped);
    ChosenExact(r.inputs, r.prior, r.reprocessArchived, r.raises, |r.inputs|, Repeated);
    FatesAddUp(r.inputs, r.prior, r.reprocessArchived, r.raises, |r.inputs|);
    assert |l.pending| == |InputsOf(l.pending)|;
    assert |l.preFailed| == |InputsOf(l.preFailed)|;
    assert |l.preCompleted| == |InputsOf(l.preCompleted)|;
  }

  /** No row that is complete or being processed is queued again, an archived one only on request,
      and a queued row that had failed or was archived is marked for clearing. */
  lemma RequeuedRows(r: Request, l: Lists, i: nat)
    requires r.Valid() && Sorted(r, |r.inputs|, l) && i in InputsOf(l.pending)
    requires i < |r.inputs| && r.inputs[i].externalId in r.prior
    ensures var status := r.prior[r.inputs[i].externalId];
      && status !in {COMPLETED, PROCESSING}
      && (status == ARCHIVED ==> r.reprocessArchived)
      && (status in {FAILED, ARCHIVED} ==> r.idOf[r.inputs[i].externalId] in l.marked)
  {
    ChosenExact(r.inputs, r.prior, r.reprocessArchived, r.raises, |r.inputs|, Queued);
    MarkedIdsExact(r.inputs, r.prior, r.idOf, r.reprocessArchived, |r.inputs|, r.idOf[r.inputs[i].externalId]);
  }

  /** Where each document goes, written out: a repeat goes nowhere; one whose row was COMPLETED or PROCESSING, or
      ARCHIVED without the flag, is reported as skipped; any other is pending when the write of its row returned
      and failed when it raised. */
  lemma WhereEachGoes(r: Request, l: Lists, i: nat)
    requires r.Valid() && Sorted(r, |r.inputs|, l) && i < |r.inputs|
    ensures var e := r.inputs[i].externalId;
      var repeated := e != "" && exists j :: 0 <= j < i && r.inputs[j].externalId == e;
      var leftAlone := e in r.prior && (r.prior[e] == COMPLETED || r.prior[e] == PROCESSING
                                        || (r.prior[e] == ARCHIVED && !r.reprocessArchived));
      && ((exists x | x in l.preCompleted :: x.input == i) <==> !repeated && leftAlone)
      && ((exists x | x in l.pending :: x.input == i) <==> !repeated && !leftAlone && !r.raises[i])
      && ((exists x | x in l.preFailed :: x.input == i) <==> !repeated && !leftAlone && r.raises[i])
  {
    ListsPartition(r, l);
    HoldsInput(l.preCompleted, i);
    HoldsInput(l.pending, i);
    HoldsInput(l.preFailed, i);
  }

  lemma HoldsInput(entries: seq<Entry>, i: nat)
    ensures i in InputsOf(entries) <==> exists x | x in entries :: x.input == i
  {
    if x :| x in entries && x.input == i {
      var k :| 0 <= k < |entries| && entries[k] == x;
      assert InputsOf(entries)[k] == i;
    }
    if i in InputsOf(entries) {
      var k :| 0 <= k < |entries| && InputsOf(entries)[k] == i;
      assert entries[k] in entries;
    }
  }

  /** The lists keep the order of the inputs, and the marked ids are those of the rows that had failed or, with the
      flag, were archived, each under the first document with its external id. */
  lemma OrderAndMarks(r: Request, l: Lists)
    requires r.Valid() && Sorted(r, |r.inputs|, l)
    ensures forall a, b | 0 <= a < b < |l.pending| :: l.pending[a].input < l.pending[b].input
    ensures forall a, b | 0 <= a < b < |l.preFailed| :: l.preFailed[a].input < l.preFailed[b].input
    ensures forall a, b | 0 <= a < b < |l.preCompleted| :: l.preCompleted[a].input < l.preCompleted[b].input
    ensures forall d :: d in l.marked <==>
      (exists i :: 0 <= i < |r.inputs|
         && r.inputs[i].externalId in r.prior && r.idOf[r.inputs[i].externalId] == d
         && (r.prior[r.inputs[i].externalId] == FAILED
             || (r.prior[r.inputs[i].externalId] == ARCHIVED && r.reprocessArchived)))
  {
    InOrder(r, l.pending, Queued);
    InOrder(r, l.preFailed, WriteFailed);
    InOrder(r, l.preCompleted, Skipped);
    forall d
      ensures d in l.marked <==>
        (exists i :: 0 <= i < |r.inputs|
           && r.inputs[i].externalId in r.prior && r.idOf[r.inputs[i].externalId] == d
           && NeedsClearing(r.prior[r.inputs[i].externalId], r.reprocessArchived))
    {
      MarkedIdsExact(r.inputs, r.prior, r.idOf, r.reprocessArchived, |r.inputs|, d);
      if i :| (0 <= i < |r.inputs| && r.inputs[i].externalId in r.prior && r.idOf[r.inputs[i].externalId] == d
               && NeedsClearing(r.prior[r.inputs[i].externalId], r.reprocessArchived))
      {
        var f := FirstOf(r.inputs, i);
        assert IsMarked(r.inputs, r.prior, r.reprocessArchived, f);
      }
    }
  }

  lemma InOrder(r: Request, entries: seq<Entry>, fate: Fate)
    requires r.Valid() && InputsOf(entries) == r.WithFate(|r.inputs|, fate)
    ensures forall a, b | 0 <= a < b < |entries| :: entries[a].input < entries[b].input
  {
    ChosenExact(r.inputs, r.prior, r.reprocessArchived, r.raises, |r.inputs|, fate);
    forall a, b | 0 <= a < b < |entries| ensures entries[a].input < entries[b].input {
      var c := InputsOf(entries);
      assert |c| == |entries| && c[a] == entries[a].input && c[b] == entries[b].input;
    }
  }

  /** The first input with the external id of input i. */
  lemma {:induction false} FirstOf(inputs: seq<Input>, i: nat) returns (f: nat)
    requires i < |inputs| && inputs[i].externalId != ""
    ensures f <= i && inputs[f].externalId == inputs[i].externalId && !IsRepeat(inputs, f)
  {
    f := i;
    if IsRepeat(inputs, i) {
      var j :| 0 <= j < i && inputs[j].externalId == inputs[i].externalId;
      f := FirstOf(inputs, j);
    }
  }

  // ---------- registering the batch ----------

  /** The k-th of n callback invocations is the first to raise something that cannot be logged. */
  ghost predicate StopsAt(callbacks: seq<Callback>, k: nat, n: nat) {
    k < n && CallbackAt(callbacks, k).Unrendered? && forall j | 0 <= j < k :: !CallbackAt(callbacks, j).Unrendered?
  }

  ghost predicate AllHeard(callbacks: seq<Callback>, n: nat) {
    forall j | 0 <= j < n :: !CallbackAt(callbacks, j).Unrendered?
  }

  /** The first n results are fired, or those up to the first at which an exception escapes, which is not counted. */
  ghost predicate FiredAsFarAs(p: Progress, p': Progress, results: seq<DocumentResult>, n: nat,
                               callbacks: seq<Callback>, attempt: Attempt)
    requires n <= |results|
  {
    if attempt == Returned then AllHeard(callbacks, n) && p' == FireAll(p, results[..n])
    else exists k: nat :: StopsAt(callbacks, k, n) && p' == Told(FireAll(p, results[..k]), results[k])
  }

  /** Fires the results from one place on up to another, one after the other. */
  method FireEach(reg: BatchRegistration, results: seq<DocumentResult>, from: nat, to: nat, callbacks: seq<Callback>,
                  ghost p: Progress)
    returns (attempt: Attempt)
    requires from <= to <= |results| && AllHeard(callbacks, from) && reg.View() == FireAll(p, results[..from])
    modifies reg, reg.handle
    ensures FiredAsFarAs(p, reg.View(), results, to, callbacks, attempt)
  {
    for k := from to to
      invariant reg.View() == FireAll(p, results[..k]) && AllHeard(callbacks, k)
    {
      assert results[..k + 1][..k] == results[..k];
      attempt := reg.FireResult(results[k], CallbackAt(callbacks, k));
      if attempt == Raised {
        assert StopsAt(callbacks, k, to);
        return;
      }
    }
    attempt := Returned;
  }

  /** Starts the countdown and fires the results that are known at once. When the callback raises something that
      cannot be logged, the submission ends there. */
  method Register(failed: seq<nat>, skipped: seq<nat>, pending: seq<nat>, marked: set<nat>, callbacks: seq<Callback>)
    returns (attempt: Attempt, reg: BatchRegistration)
    ensures fresh(reg) && fresh(reg.handle) && reg.preFailedDocIds == marked
    ensures FiredAsFarAs(Started(|failed| + |skipped| + |pending|), reg.View(), EarlyResults(failed, skipped),
                         |failed| + |skipped|, callbacks, attempt)
    ensures attempt == Returned ==> Consistent(reg.View())
    ensures attempt == Returned <==>
      forall k | 0 <= k < |failed| + |skipped| && k < |callbacks| :: callbacks[k] != Unrendered
    ensures reg.handle.total == |failed| + |skipped| + |pending| && reg.handle.completed == |reg.calls|
    ensures |reg.calls| <= |failed| + |skipped|
    ensures forall i | 0 <= i < |reg.calls| ::
      reg.calls[i].result == (if i < |failed| then DocumentResult(failed[i], false, false)
                              else DocumentResult(skipped[i - |failed|], true, true))
    ensures attempt == Returned ==> |reg.calls| == |failed| + |skipped| && reg.handle.failed == |failed|
                                    && reg.remaining == |pending| && (reg.handle.done <==> |pending| == 0)
    ensures attempt == Raised ==>
      && reg.remaining == reg.handle.total - |reg.calls| + 1
      && 0 < |reg.calls| <= |callbacks| && callbacks[|reg.calls| - 1] == Unrendered
      && forall k | 0 <= k < |reg.calls| - 1 :: callbacks[k] != Unrendered
  {
    hide Fire, Told, StopsAt, AllHeard, Consistent, FiredAsFarAs, EarlyResults;
    var total, early := |failed| + |skipped| + |pending|, EarlyResults(failed, skipped);
    NoneStopped(callbacks);
    var handle := new BatchHandle(total);
    if total == 0 { handle.MarkDone(); }
    reg := new BatchRegistration(handle, marked, total);
    assert reg.View() == Started(total);
    EarlyFirings(failed, skipped);
    assert early[..|early|] == early;
    attempt := FireEach(reg, early, 0, |failed|, callbacks, Started(total));
    if attempt == Raised {
      LaterStop(Started(total), reg.View(), early, |failed|, |early|, callbacks);
      FiredMeans(total, reg.View(), early, callbacks, attempt);
      return;
    }
    FiredWhenReturned(Started(total), reg.View(), early, |failed|, callbacks);
    attempt := FireEach(reg, early, |failed|, |early|, callbacks, Started(total));
    FiredMeans(total, reg.View(), early, callbacks, attempt);
    if attempt == Returned {
      FiredWhenReturned(Started(total), reg.View(), early, |early|, callbacks);
      FailuresOf(total, reg.View(), early, |failed|);
    }
  }

  lemma EarlyFirings(failed: seq<nat>, skipped: seq<nat>)
    ensures var early := EarlyResults(failed, skipped);
      && |early| == |failed| + |skipped|
      && (forall i | 0 <= i < |early| ::
            early[i] == (if i < |failed| then DocumentResult(failed[i], false, false)
                         else DocumentResult(skipped[i - |failed|], true, true)))
  {
  }

  lemma FiredWhenReturned(p: Progress, p': Progress, results: seq<DocumentResult>, n: nat, callbacks: seq<Callback>)
    requires n <= |results| && FiredAsFarAs(p, p', results, n, callbacks, Returned)
    ensures AllHeard(callbacks, n) && p' == FireAll(p, results[..n])
  {
  }

  lemma FiredMeans(total: nat, p: Progress, results: seq<DocumentResult>, callbacks: seq<Callback>, attempt: Attempt)
    requires |results| <= total && FiredAsFarAs(Started(total), p, results, |results|, callbacks, attempt)
    ensures attempt == Returned <==>
      forall k | 0 <= k < |results| && k < |callbacks| :: callbacks[k] != Unrendered
    ensures p.total == total && p.completed == |p.calls| <= |results|
    ensures forall i | 0 <= i < |p.calls| :: p.calls[i].result == results[i]
    ensures attempt == Returned ==> |p.calls| == |results| && Consistent(p) && p.remaining == total - |results|
                                    && (p.done <==> total == |results|)
    ensures attempt == Raised ==>
      && p.remaining == total - |p.calls| + 1
      && 0 < |p.calls| <= |callbacks| && callbacks[|p.calls| - 1] == Unrendered
      && forall k | 0 <= k < |p.calls| - 1 :: callbacks[k] != Unrendered
  {
    hide Consistent, FireAll;
    if attempt == Returned {
      hide Told;
      AllFiredMeans(total, results);
      assert results[..|results|] == results;
      assert forall k | 0 <= k < |results| && k < |callbacks| :: CallbackAt(callbacks, k) == callbacks[k];
    } else {
      var k: nat :| StopsAt(callbacks, k, |results|)
                 && p == Told(FireAll(Started(total), results[..k]), results[k]);
      ToldMeans(total, results, k);
      assert forall j | 0 <= j < k && j < |callbacks| :: CallbackAt(callbacks, j) == callbacks[j];
    }
  }

  lemma AllFiredMeans(total: nat, results: seq<DocumentResult>)
    requires |results| <= total
    ensures var p := FireAll(Started(total), results);
      && p.total == total && p.completed == |p.calls| == |results| && p.remaining == total - |results|
      && Consistent(p) && (p.done <==> total == |results|)
      && forall i | 0 <= i < |results| :: p.calls[i].result == results[i]
  {
    hide FireAll;
    FireAllConsistent(total, results);
  }

  lemma ToldMeans(total: nat, results: seq<DocumentResult>, k: nat)
    requires k < |results| <= total
    ensures var p := Told(FireAll(Started(total), results[..k]), results[k]);
      && p.total == total && p.completed == |p.calls| == k + 1 && p.remaining == total - k
      && forall i | 0 <= i <= k :: p.calls[i].result == results[i]
  {
    FireAllConsistent(total, results[..k]);
  }

  /** When the first m results are failures and the others are not, m failures are counted. */
  lemma {:induction false} FailuresOf(total: nat, p: Progress, results: seq<DocumentResult>, m: nat)
    requires m <= |results| <= total && p == FireAll(Started(total), results)
    requires forall i | 0 <= i < |results| :: results[i].success <==> m <= i
    ensures p.failed == m
    decreases |results|
  {
    if results != [] {
      var n := |results| - 1;
      FailuresOf(total, FireAll(Started(total), results[..n]), results[..n], if m <= n then m else n);
    }
  }

  lemma NoneStopped(callbacks: seq<Callback>)
    ensures AllHeard(callbacks, 0)
  {
  }

  lemma LaterStop(p: Progress, p': Progress, results: seq<DocumentResult>, n: nat, m: nat, callbacks: seq<Callback>)
    requires n <= m <= |results| && FiredAsFarAs(p, p', results, n, callbacks, Raised)
    ensures FiredAsFarAs(p, p', results, m, callbacks, Raised)
  {
    var k: nat :| StopsAt(callbacks, k, n) && p' == Told(FireAll(p, results[..k]), results[k]);
    assert StopsAt(callbacks, k, m);
  }

  /** The step system starts a batch from the sorted lists: with the progress that the registration has, with
      the marks of all rows that had failed or were archived, and with the pending documents, in order, as
      the next tickets and at the end of the queue, unless the submission is refused. */
  lemma RegistersAsSubmitted(l: Lists, s: State, limit: nat)
    ensures var failed, skipped, pending := IdsOf(l.preFailed), IdsOf(l.preCompleted), IdsOf(l.pending);
      var s' := SubmitBatch(s, failed, skipped, pending, l.marked, limit);
      && |s'.batches| == |s.batches| + 1
      && s'.batches[|s.batches|].progress
         == FireAll(Started(|failed| + |skipped| + |pending|), EarlyResults(failed, skipped))
      && s'.batches[|s.batches|].marked == l.marked && s'.batches[|s.batches|].limit == limit
      && (s'.batches[|s.batches|].abandoned <==> l.pending != [] && !s.running)
      && (pending != [] && !s.running ==> s'.items == s.items && s'.queue == s.queue)
      && (pending == [] || s.running ==>
            |s'.items| == |s.items| + |l.pending| && |s'.queue| == |s.queue| + |l.pending|
            && s'.items[..|s.items|] == s.items && s'.queue[..|s.queue|] == s.queue
            && forall k | 0 <= k < |l.pending| ::
              s'.items[|s.items| + k] == Item(l.pending[k].doc.id, Some(|s.batches|))
              && s'.queue[|s.queue| + k] == |s.items| + k)
  {
    assert |EarlyResults(IdsOf(l.preFailed), IdsOf(l.preCompleted))| == |l.preFailed| + |l.preCompleted|;
  }
}
