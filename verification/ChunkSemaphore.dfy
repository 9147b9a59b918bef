/** The process-wide semaphore for chunks in flight, with bulk acquire and release, and the clients
    that interleave on it. */
module ChunkSemaphore {
  import opened Sizes

  datatype Outcome = Fine | Underflow

  class GlobalChunkSemaphore {
    const capacity: nat
    var inFlight: nat

    ghost predicate Valid() reads this { inFlight <= capacity }

    constructor (capacity: nat)
      ensures Valid() && this.capacity == capacity && inFlight == 0
    {
      this.capacity, inFlight := capacity, 0;
    }

    /** Whether a request for n has stopped waiting. */
    predicate Ready(n: nat) reads this { inFlight + Min(n, capacity) <= capacity }

    /** The end of acquire, once the waiting is over. A request beyond the capacity is cut down to it. */
    method Acquire(n: nat) returns (granted: nat)
      requires Valid() && Ready(n)
      modifies this
      ensures Valid() && granted == (if n < capacity then n else capacity) && inFlight == old(inFlight) + granted
    {
      granted := Min(n, capacity);
      inFlight := inFlight + granted;
    }

    method Release(n: nat) returns (outcome: Outcome)
      requires Valid()
      modifies this
      ensures Valid()
      ensures if old(inFlight) < n then outcome == Underflow && inFlight == old(inFlight)
              else outcome == Fine && inFlight == old(inFlight) - n
    {
      if inFlight < n { return Underflow; }
      inFlight := inFlight - n;
      outcome := Fine;
    }
  }

  // ---------- clients ----------

  /** A client between windows, waiting to start a window of n chunks, or working on one. */
  datatype Client = Outside | Waiting(n: nat) | Working(n: nat, granted: nat)

  datatype State = State(capacity: nat, inFlight: nat, clients: seq<Client>)

  datatype Step = Ask(i: nat, n: nat) | Grant(i: nat) | GiveBack(i: nat)

  predicate Enabled(s: State, step: Step) {
    match step
    case Ask(i, _) => i < |s.clients| && s.clients[i].Outside?
    case Grant(i) => i < |s.clients| && s.clients[i].Waiting?
      && s.inFlight + Min(s.clients[i].n, s.capacity) <= s.capacity
    case GiveBack(i) => i < |s.clients| && s.clients[i].Working?
  }

  /** None when the release raises. */
  datatype Next = Raised | Reached(state: State)

  function Apply(s: State, step: Step): Next
    requires Enabled(s, step)
  {
    match step
    case Ask(i, n) => Reached(s.(clients := s.clients[i := Waiting(n)]))
    case Grant(i) =>
      var n := s.clients[i].n;
      var granted := Min(n, s.capacity);
      Reached(s.(inFlight := s.inFlight + granted, clients := s.clients[i := Working(n, granted)]))
    case GiveBack(i) =>
      var granted := s.clients[i].granted;
      if s.inFlight < granted then Raised
      else Reached(s.(inFlight := s.inFlight - granted, clients := s.clients[i := Outside]))
  }

  function Granted(clients: seq<Client>): nat {
    if clients == [] then 0
    else
      var last := clients[|clients| - 1];
      Granted(clients[..|clients| - 1]) + if last.Working? then last.granted else 0
  }

  /** The chunks that are being worked on. */
  function Chunks(clients: seq<Client>): nat {
    if clients == [] then 0
    else Chunks(clients[..|clients| - 1]) + if clients[|clients| - 1].Working? then clients[|clients| - 1].n else 0
  }

  function GrantOf(c: Client): nat { if c.Working? then c.granted else 0 }

  lemma {:induction false} GrantedUpdate(clients: seq<Client>, i: nat, c: Client)
    requires i < |clients|
    ensures Granted(clients[i := c]) == Granted(clients) - GrantOf(clients[i]) + GrantOf(c)
  {
    var k := |clients| - 1;
    if i == k {
      assert clients[i := c][..k] == clients[..k];
    } else {
      assert clients[i := c][..k] == clients[..k][i := c];
      GrantedUpdate(clients[..k], i, c);
    }
  }

  /** The tokens in flight are the outstanding grants, and no more than the capacity. */
  ghost predicate Inv(s: State) {
    && s.inFlight == Granted(s.clients) <= s.capacity
    && forall i | 0 <= i < |s.clients| && s.clients[i].Working? ::
      s.clients[i].granted == Min(s.clients[i].n, s.capacity)
  }

  lemma {:induction false} GrantedAtLeast(clients: seq<Client>, i: nat)
    requires i < |clients|
    ensures GrantOf(clients[i]) <= Granted(clients)
  {
    if i < |clients| - 1 { GrantedAtLeast(clients[..|clients| - 1], i); }
  }

  /** Under every interleaving the books balance, and a release of what acquire returned never
      raises. */
  lemma StepKeepsInv(s: State, step: Step)
    requires Inv(s) && Enabled(s, step)
    ensures Apply(s, step).Reached? && Inv(Apply(s, step).state)
  {
    match step
    case Ask(i, n) => GrantedUpdate(s.clients, i, Waiting(n));
    case Grant(i) => GrantedUpdate(s.clients, i, Working(s.clients[i].n, Min(s.clients[i].n, s.capacity)));
    case GiveBack(i) =>
      GrantedAtLeast(s.clients, i);
      GrantedUpdate(s.clients, i, Outside);
  }

  /** A run: at first nobody asks for anything, and each state is reached from the one before. */
  ghost predicate IsRun(run: seq<State>, steps: seq<Step>) {
    && |run| == |steps| + 1 && run[0].inFlight == 0
      && (forall i | 0 <= i < |run[0].clients| :: run[0].clients[i].Outside?)
    && forall j | 0 <= j < |steps| :: Follows(run[j], steps[j], run[j + 1])
  }

  ghost predicate Follows(s: State, step: Step, s': State) { Enabled(s, step) && Apply(s, step) == Reached(s') }

  /** In every run the tokens in flight are the outstanding grants, within the capacity that the semaphore
      started with, and no release raises. */
  lemma {:induction false} RunKeepsInv(run: seq<State>, steps: seq<Step>, j: nat)
    requires IsRun(run, steps) && j < |run|
    ensures Inv(run[j]) && run[j].capacity == run[0].capacity
    ensures run[j].inFlight == Granted(run[j].clients) <= run[0].capacity
    ensures forall i | 0 <= i < |run[j].clients| && run[j].clients[i].Working? ::
      var c := run[j].clients[i];
      c.granted == if c.n < run[0].capacity then c.n else run[0].capacity
    ensures forall step | Enabled(run[j], step) :: Apply(run[j], step) != Raised
  {
    if j == 0 {
      NothingGranted(run[0].clients);
    } else {
      RunKeepsInv(run, steps, j - 1);
      assert Follows(run[j - 1], steps[j - 1], run[j - 1 + 1]);
      StepKeepsInv(run[j - 1], steps[j - 1]);
    }
    forall step | Enabled(run[j], step) ensures Apply(run[j], step) != Raised { StepKeepsInv(run[j], step); }
  }

  lemma {:induction false} NothingGranted(clients: seq<Client>)
    requires forall i | 0 <= i < |clients| :: !clients[i].Working?
    ensures Granted(clients) == 0
  {
    if clients != [] { NothingGranted(clients[..|clients| - 1]); }
  }

  /** Cutting requests down to the capacity rules out deadlock: a waiting client can go ahead, or
      some client is working and will give back. */
  lemma NoDeadlock(s: State, i: nat)
    requires Inv(s) && i < |s.clients| && s.clients[i].Waiting?
    ensures Enabled(s, Grant(i)) || exists j :: 0 <= j < |s.clients| && s.clients[j].Working?
  {
    if forall j | 0 <= j < |s.clients| :: !s.clients[j].Working? {
      NothingGranted(s.clients);
    }
  }

  lemma {:induction false} ChunksAreGranted(clients: seq<Client>)
    requires forall i | 0 <= i < |clients| && clients[i].Working? :: clients[i].granted == clients[i].n
    ensures Chunks(clients) == Granted(clients)
  {
    if clients != [] { ChunksAreGranted(clients[..|clients| - 1]); }
  }

  lemma {:induction false} ChunksAtLeast(clients: seq<Client>, i: nat)
    requires i < |clients| && clients[i].Working?
    ensures clients[i].n <= Chunks(clients)
  {
    if i < |clients| - 1 { ChunksAtLeast(clients[..|clients| - 1], i); }
  }

  /** The number of chunks in flight stays within the capacity exactly while no working window is
      larger than the capacity: cutting a request down bounds the tokens, not the chunks. */
  lemma ChunkBoundExact(s: State)
    requires Inv(s)
    ensures Chunks(s.clients) <= s.capacity <==>
      forall i | 0 <= i < |s.clients| && s.clients[i].Working? :: s.clients[i].n <= s.capacity
  {
    if i :| 0 <= i < |s.clients| && s.clients[i].Working? && s.clients[i].n > s.capacity {
      ChunksAtLeast(s.clients, i);
    } else {
      ChunksAreGranted(s.clients);
    }
  }

  /** A window of 10 chunks on a semaphore of capacity 5 is let in with 5 tokens. */
  lemma OversizedWindow()
    ensures var s := State(5, 0, [Waiting(10)]);
      && Inv(s) && Enabled(s, Grant(0))
      && Apply(s, Grant(0)).state.inFlight == 5 && Chunks(Apply(s, Grant(0)).state.clients) == 10
  {
    assert Apply(State(5, 0, [Waiting(10)]), Grant(0)).state.clients[..0] == [];
  }
}
