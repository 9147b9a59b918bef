/** Which earlier item a later one duplicates: the rule behind the pass over sorted candidate pairs,
    the quadratic greedy rule, and when the two agree. */
module Leaders {
  import opened Options

  /** The relation is on positions, smaller position first. */
  type Pairs = (nat, nat) -> bool

  function RootOf(link: Option<nat>, a: nat): nat {
    match link
    case Some(r) => r
    case None => a
  }

  /** Among the first k positions, the root of the first candidate partner of b whose root is similar
      to b. */
  ghost function LeaderAmong(cand: Pairs, sim: Pairs, b: nat, k: nat): Option<nat>
    requires k <= b
    decreases b, k
  {
    if k == 0 then None
    else
      var earlier := LeaderAmong(cand, sim, b, k - 1);
      var root := RootOf(LeaderAmong(cand, sim, k - 1, k - 1), k - 1);
      if earlier.Some? then earlier
      else if cand(k - 1, b) && sim(root, b) then Some(root)
      else None
  }

  ghost function Leader(cand: Pairs, sim: Pairs, b: nat): Option<nat> { LeaderAmong(cand, sim, b, b) }

  ghost function Root(cand: Pairs, sim: Pairs, a: nat): nat { RootOf(Leader(cand, sim, a), a) }

  /** Links point strictly backwards to an item without a link, and are verified. */
  lemma {:induction false} LinksAreDepthOne(cand: Pairs, sim: Pairs, b: nat, k: nat)
    requires k <= b
    ensures var l := LeaderAmong(cand, sim, b, k);
      l.Some? ==> l.value < k && Leader(cand, sim, l.value) == None && sim(l.value, b)
    decreases b, k
  {
    if k > 0 {
      LinksAreDepthOne(cand, sim, b, k - 1);
      LinksAreDepthOne(cand, sim, k - 1, k - 1);
    }
  }

  /** A leader found among the first positions stays, and so does none while no candidate is added. */
  lemma {:induction false} LeaderPersists(cand: Pairs, sim: Pairs, b: nat, j: nat, k: nat)
    requires j <= k <= b
    requires LeaderAmong(cand, sim, b, j).Some? || forall x | j <= x < k :: !cand(x, b)
    ensures LeaderAmong(cand, sim, b, k) == LeaderAmong(cand, sim, b, j)
  {
    if j < k { LeaderPersists(cand, sim, b, j, k - 1); }
  }

  /** What b is linked to: the root of its first earlier candidate partner whose root is similar to b, and nothing
      when there is no such partner. The root of a position is what it is linked to itself, or else the position. */
  lemma LeaderMeaning(cand: Pairs, sim: Pairs, b: nat, root: nat -> nat)
    requires forall a: nat | a < b :: root(a) == match Leader(cand, sim, a) case Some(r) => r case None => a
    ensures Leader(cand, sim, b) == None <==> forall a: nat | a < b :: !(cand(a, b) && sim(root(a), b))
    ensures Leader(cand, sim, b).Some? ==>
      exists a: nat :: a < b && cand(a, b) && sim(root(a), b) && Leader(cand, sim, b).value == root(a)
                       && forall e: nat | e < a :: !(cand(e, b) && sim(root(e), b))
  {
    FirstAmong(cand, sim, b, b, root);
  }

  lemma {:induction false} FirstAmong(cand: Pairs, sim: Pairs, b: nat, k: nat, root: nat -> nat)
    requires k <= b
    requires forall a: nat | a < b :: root(a) == match Leader(cand, sim, a) case Some(r) => r case None => a
    ensures LeaderAmong(cand, sim, b, k) == None <==> forall a: nat | a < k :: !(cand(a, b) && sim(root(a), b))
    ensures LeaderAmong(cand, sim, b, k).Some? ==>
      exists a: nat :: a < k && cand(a, b) && sim(root(a), b) && LeaderAmong(cand, sim, b, k).value == root(a)
                       && forall e: nat | e < a :: !(cand(e, b) && sim(root(e), b))
  {
    if k > 0 {
      FirstAmong(cand, sim, b, k - 1, root);
      assert root(k - 1) == RootOf(LeaderAmong(cand, sim, k - 1, k - 1), k - 1);
    }
  }

  // ---------- the quadratic greedy rule ----------

  /** Among the first k positions, the first one without a link that is similar to b. */
  ghost function GreedyAmong(sim: Pairs, b: nat, k: nat): Option<nat>
    requires k <= b
    decreases b, k
  {
    if k == 0 then None
    else
      var earlier := GreedyAmong(sim, b, k - 1);
      if earlier.Some? then earlier
      else if GreedyAmong(sim, k - 1, k - 1) == None && sim(k - 1, b) then Some(k - 1)
      else None
  }

  ghost function Greedy(sim: Pairs, b: nat): Option<nat> { GreedyAmong(sim, b, b) }

  /** The quadratic rule links b to the first earlier item that is linked to nothing and similar to b, and to nothing
      when there is no such item. */
  lemma GreedyMeaning(sim: Pairs, b: nat)
    ensures Greedy(sim, b) == None <==> forall a: nat | a < b :: !(Greedy(sim, a) == None && sim(a, b))
    ensures Greedy(sim, b).Some? ==> var r := Greedy(sim, b).value;
      r < b && Greedy(sim, r) == None && sim(r, b) && forall e: nat | e < r :: !(Greedy(sim, e) == None && sim(e, b))
  {
    var free := (a: nat) => Greedy(sim, a) == None;
    FirstGreedy(sim, b, b, free);
    GreedyIs(sim, b);
    hide Greedy, GreedyAmong;
  }

  lemma GreedyIs(sim: Pairs, a: nat)
    ensures Greedy(sim, a) == GreedyAmong(sim, a, a)
  {
  }

  lemma {:induction false} FirstGreedy(sim: Pairs, b: nat, k: nat, free: nat -> bool)
    requires k <= b && forall a: nat | a < b :: free(a) <==> Greedy(sim, a) == None
    ensures GreedyAmong(sim, b, k) == None <==> forall a: nat | a < k :: !(free(a) && sim(a, b))
    ensures GreedyAmong(sim, b, k).Some? ==> var r := GreedyAmong(sim, b, k).value;
      r < k && free(r) && sim(r, b) && forall e: nat | e < r :: !(free(e) && sim(e, b))
  {
    hide Greedy;
    if k > 0 {
      FirstGreedy(sim, b, k - 1, free);
      GreedyIs(sim, k - 1);
    }
  }

  /** Every pair of positions that the rule can ask about is a candidate if it is similar. */
  ghost predicate Complete(cand: Pairs, sim: Pairs, n: nat) {
    forall a, b | 0 <= a < b < n && sim(a, b) :: cand(a, b)
  }

  /** With complete candidates the pass over the pairs finds the greedy leaders. */
  lemma {:induction false} LeaderIsGreedyAmong(cand: Pairs, sim: Pairs, n: nat, b: nat, k: nat)
    requires k <= b < n && Complete(cand, sim, n)
    ensures LeaderAmong(cand, sim, b, k) == GreedyAmong(sim, b, k)
    decreases b, k
  {
    if k > 0 {
      var a := k - 1;
      LeaderIsGreedyAmong(cand, sim, n, b, a);
      LeaderIsGreedyAmong(cand, sim, n, a, a);
      if LeaderAmong(cand, sim, b, a) == None && Leader(cand, sim, a).Some? {
        LinksAreDepthOne(cand, sim, a, a);
        NoMissedLeader(cand, sim, b, a, Root(cand, sim, a));
      }
    }
  }

  /** An earlier leader that is a candidate and similar would have been found. */
  lemma NoMissedLeader(cand: Pairs, sim: Pairs, b: nat, k: nat, r: nat)
    requires r < k <= b && Leader(cand, sim, r) == None && LeaderAmong(cand, sim, b, k) == None
    ensures !(cand(r, b) && sim(r, b))
  {
    if cand(r, b) && sim(r, b) {
      assert LeaderAmong(cand, sim, b, r + 1).Some?;
      LeaderPersists(cand, sim, b, r + 1, k);
    }
  }

  lemma LeaderIsGreedy(cand: Pairs, sim: Pairs, n: nat)
    requires Complete(cand, sim, n)
    ensures forall b | 0 <= b < n :: Leader(cand, sim, b) == Greedy(sim, b)
  {
    forall b | 0 <= b < n ensures Leader(cand, sim, b) == Greedy(sim, b) {
      LeaderIsGreedyAmong(cand, sim, n, b, b);
    }
  }

  // ---------- items that cannot be told apart ----------

  lemma {:induction false} SameLeaderAmong(cand: Pairs, sim: Pairs, i: nat, j: nat, k: nat)
    requires k <= i < j
    requires forall x | 0 <= x < i :: cand(x, i) == cand(x, j) && sim(x, i) == sim(x, j)
    ensures LeaderAmong(cand, sim, i, k) == LeaderAmong(cand, sim, j, k)
  {
    if k > 0 {
      SameLeaderAmong(cand, sim, i, j, k - 1);
      LinksAreDepthOne(cand, sim, k - 1, k - 1);
      assert Root(cand, sim, k - 1) < i;
    }
  }

  /** A later item that looks the same as an earlier one, and like itself, is always linked, and to the
      earlier one's root. */
  lemma CopiesAreLinked(cand: Pairs, sim: Pairs, i: nat, j: nat)
    requires i < j
    requires forall x | 0 <= x < i :: cand(x, i) == cand(x, j) && sim(x, i) == sim(x, j)
    requires cand(i, j) && sim(i, j)
    ensures Leader(cand, sim, j) == Some(Root(cand, sim, i))
  {
    SameLeaderAmong(cand, sim, i, j, i);
    LinksAreDepthOne(cand, sim, i, i);
    CopyFound(cand, sim, i, j);
    LeaderPersists(cand, sim, j, i + 1, j);
  }

  lemma CopyFound(cand: Pairs, sim: Pairs, i: nat, j: nat)
    requires i < j && cand(i, j) && sim(i, j)
    requires LeaderAmong(cand, sim, i, i) == LeaderAmong(cand, sim, j, i)
    ensures LeaderAmong(cand, sim, j, i + 1) == Some(Root(cand, sim, i))
  {
  }
}
