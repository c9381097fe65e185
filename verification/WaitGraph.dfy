/**
 The wait-for graph: each waiter waits for at most one other, and an edge that
 would close a cycle is refused.
 */
module WaitGraph {
  type Id = int

  /** The node `n` edges on from `from`, if the chain is that long. */
  ghost predicate Reaches(g: map<Id, Id>, from: Id, to: Id, n: nat)
    decreases n
  {
    if n == 0 then from == to else from in g && Reaches(g, g[from], to, n - 1)
  }

  ghost predicate Reachable(g: map<Id, Id>, from: Id, to: Id) {
    exists n: nat :: Reaches(g, from, to, n)
  }

  /** Nobody waits, directly or through others, for itself. */
  ghost predicate Acyclic(g: map<Id, Id>) {
    forall x, n: nat :: n > 0 ==> !Reaches(g, x, x, n)
  }

  lemma {:induction false} ReachesTrans(g: map<Id, Id>, a: Id, b: Id, c: Id, m: nat, n: nat)
    requires Reaches(g, a, b, m) && Reaches(g, b, c, n)
    ensures Reaches(g, a, c, m + n)
    decreases m
  {
    if m == 0 {
    } else {
      ReachesTrans(g, g[a], b, c, m - 1, n);
    }
  }

  /** A chain to `to` that does not pass through `from` survives a new edge out of `from`. */
  lemma {:induction false} ReachesAvoiding(g: map<Id, Id>, g': map<Id, Id>, from: Id, a: Id, n: nat)
    requires Reaches(g, a, from, n)
    requires forall x :: x != from ==> (x in g <==> x in g') && (x in g ==> g[x] == g'[x])
    ensures exists m: nat :: Reaches(g', a, from, m)
    decreases n
  {
    if a == from {
      assert Reaches(g', a, from, 0);
    } else {
      ReachesAvoiding(g, g', from, g[a], n - 1);
      var m: nat :| Reaches(g', g[a], from, m);
      assert Reaches(g', a, from, m + 1);
    }
  }

  /** A chain that follows old edges to `from` and then starts with the new one. */
  ghost predicate Through(g: map<Id, Id>, from: Id, to: Id, a: Id, b: Id, m: nat, k: nat) {
    Reaches(g, a, from, m) && Reaches(g[from := to], to, b, k)
  }

  /** A chain in the new graph either avoids the new edge or goes through it. */
  lemma {:induction false} ReachesOldOrThrough(g: map<Id, Id>, from: Id, to: Id, a: Id, b: Id, n: nat)
    requires Reaches(g[from := to], a, b, n)
    ensures Reaches(g, a, b, n) || exists m: nat, k: nat :: Through(g, from, to, a, b, m, k)
    decreases n
  {
    if n == 0 {
    } else {
      if a == from {
        assert Through(g, from, to, a, b, 0, n - 1);
      } else {
        ReachesOldOrThrough(g, from, to, g[a], b, n - 1);
        if !Reaches(g, g[a], b, n - 1) {
          var m: nat, k: nat :| Through(g, from, to, g[a], b, m, k);
          assert Through(g, from, to, a, b, m + 1, k);
        }
      }
    }
  }

  /** If `to` reaches, in the new graph, a node from which old edges lead to
      `from`, then it reaches `from` already. */
  lemma BackToFrom(g: map<Id, Id>, from: Id, to: Id, b: Id, k: nat, m: nat)
    requires Reaches(g[from := to], to, b, k) && Reaches(g, b, from, m)
    ensures Reachable(g, to, from)
  {
    ReachesOldOrThrough(g, from, to, to, b, k);
    if Reaches(g, to, b, k) {
      ReachesTrans(g, to, b, from, k, m);
    }
  }

  /** Adding or replacing the edge keeps the graph acyclic if and only if `to` does not reach `from`. */
  lemma EdgeClosesCycleIff(g: map<Id, Id>, from: Id, to: Id)
    requires Acyclic(g)
    ensures Acyclic(g[from := to]) <==> !Reachable(g, to, from)
  {
    var g' := g[from := to];
    if Reachable(g, to, from) {
      var n: nat :| Reaches(g, to, from, n);
      ReachesAvoiding(g, g', from, to, n);
      var m: nat :| Reaches(g', to, from, m);
      assert Reaches(g', from, from, m + 1);
    } else {
      forall x, n: nat | n > 0 ensures !Reaches(g', x, x, n) {
        if Reaches(g', x, x, n) {
          ReachesOldOrThrough(g, from, to, x, x, n);
          var m: nat, k: nat :| Through(g, from, to, x, x, m, k);
          BackToFrom(g, from, to, x, k, m);
        }
      }
    }
  }

  lemma RemovalKeepsAcyclic(g: map<Id, Id>, from: Id)
    requires Acyclic(g)
    ensures Acyclic(g - {from})
  {
    forall x, n: nat | n > 0 ensures !Reaches(g - {from}, x, x, n) {
      if Reaches(g - {from}, x, x, n) {
        ReachesLess(g, from, x, x, n);
      }
    }
  }

  lemma {:induction false} ReachesLess(g: map<Id, Id>, from: Id, a: Id, b: Id, n: nat)
    requires Reaches(g - {from}, a, b, n)
    ensures Reaches(g, a, b, n)
    decreases n
  {
    if n == 0 {
    } else {
      ReachesLess(g, from, g[a], b, n - 1);
    }
  }

  /** A set that no edge leaves confines every chain that starts in it. */
  lemma {:induction false} ClosedSetConfines(g: map<Id, Id>, closed: set<Id>, from: Id, to: Id, n: nat)
    requires from in closed && forall x :: x in closed && x in g ==> g[x] in closed
    requires Reaches(g, from, to, n)
    ensures to in closed
    decreases n
  {
    if n == 0 {
    } else {
      ClosedSetConfines(g, closed, g[from], to, n - 1);
    }
  }

  lemma NotReachable(g: map<Id, Id>, closed: set<Id>, from: Id, to: Id)
    requires from in closed && to !in closed && forall x :: x in closed && x in g ==> g[x] in closed
    ensures !Reachable(g, from, to)
  {
    forall n: nat ensures !Reaches(g, from, to, n) {
      if Reaches(g, from, to, n) {
        ClosedSetConfines(g, closed, from, to, n);
      }
    }
  }

  datatype Verdict = Recorded | Ignored | Cycle

  predicate Ignores(from: Id, to: Id) {
    from == 0 || to == 0 || from == to
  }

  ghost function BeginVerdict(g: map<Id, Id>, from: Id, to: Id): Verdict {
    if Ignores(from, to) then Ignored else if Reachable(g, to, from) then Cycle else Recorded
  }

  ghost function AfterBegin(g: map<Id, Id>, from: Id, to: Id): map<Id, Id> {
    if BeginVerdict(g, from, to).Recorded? then g[from := to] else g
  }

  function AfterEnd(g: map<Id, Id>, from: Id, to: Id): map<Id, Id> {
    if from != 0 && from in g && g[from] == to then g - {from} else g
  }

  class Monitor {
    var waitFor: map<Id, Id>
    var labels: map<Id, string>

    ghost predicate Valid()
      reads this
    {
      Acyclic(waitFor) && labels.Keys == waitFor.Keys
    }

    constructor ()
      ensures Valid() && waitFor == map[]
    {
      waitFor, labels := map[], map[];
    }

    /** Follows the chain until it ends, repeats or meets the target. */
    method CanReach(from: Id, target: Id) returns (yes: bool)
      ensures yes <==> Reachable(waitFor, from, target)
    {
      var visited: set<Id> := {};
      var current := from;
      ghost var n: nat := 0;
      while true
        invariant Reaches(waitFor, from, current, n)
        invariant from in visited || current == from
        invariant target !in visited
        invariant forall x :: x in visited ==> x in waitFor && (waitFor[x] in visited || waitFor[x] == current)
        decreases waitFor.Keys - visited
      {
        if current == target {
          return true;
        }
        if current in visited {
          NotReachable(waitFor, visited, from, target);
          return false;
        }
        visited := visited + {current};
        if current !in waitFor {
          NotReachable(waitFor, visited, from, target);
          return false;
        }
        assert Reaches(waitFor, current, waitFor[current], 1) by {
          assert Reaches(waitFor, waitFor[current], waitFor[current], 0);
        }
        ReachesTrans(waitFor, from, current, waitFor[current], n, 1);
        current := waitFor[current];
        n := n + 1;
      }
    }

    /** Records the edge, or refuses it exactly when it would close a cycle, even
        where it replaces an older edge of the same waiter. */
    method BeginWait(from: Id, to: Id, tag: string) returns (r: Verdict)
      requires Valid()
      modifies this
      ensures Valid() && waitFor == AfterBegin(old(waitFor), from, to) && r == BeginVerdict(old(waitFor), from, to)
      ensures !Ignores(from, to) ==> (r.Cycle? <==> !Acyclic(old(waitFor)[from := to]))
      ensures labels == if r.Recorded? then old(labels)[from := tag] else old(labels)
    {
      if from == 0 || to == 0 || from == to {
        return Ignored;
      }
      EdgeClosesCycleIff(waitFor, from, to);
      var closes := CanReach(to, from);
      if closes {
        return Cycle;
      }
      waitFor := waitFor[from := to];
      labels := labels[from := tag];
      return Recorded;
    }

    method EndWait(from: Id, to: Id)
      requires Valid()
      modifies this
      ensures Valid() && waitFor == AfterEnd(old(waitFor), from, to)
    {
      if from == 0 {
        return;
      }
      if from in waitFor && waitFor[from] == to {
        RemovalKeepsAcyclic(waitFor, from);
        waitFor := waitFor - {from};
        labels := labels - {from};
      }
    }

    method Reset()
      modifies this
      ensures Valid() && waitFor == map[]
    {
      waitFor, labels := map[], map[];
    }
  }

  datatype Op = Begin(from: Id, to: Id) | End(from: Id, to: Id) | Clear

  ghost function Apply(ops: seq<Op>): map<Id, Id> {
    if ops == [] then map[]
    else
      var g' := Apply(ops[..|ops| - 1]);
      match ops[|ops| - 1]
      case Begin(from, to) => AfterBegin(g', from, to)
      case End(from, to) => AfterEnd(g', from, to)
      case Clear => map[]
  }

  /** Every sequence of BeginWait, EndWait and Reset leaves the graph acyclic. */
  lemma {:induction false} AlwaysAcyclic(ops: seq<Op>)
    ensures Acyclic(Apply(ops))
  {
    if ops == [] {
    } else {
      var g := Apply(ops[..|ops| - 1]);
      AlwaysAcyclic(ops[..|ops| - 1]);
      match ops[|ops| - 1]
      case Begin(from, to) => EdgeClosesCycleIff(g, from, to);
      case End(from, to) => RemovalKeepsAcyclic(g, from);
      case Clear =>
    }
  }

  // ------------------------------------------------------- told from the history

  /** The k-th operation asks for a wait that is none of the ignored ones and would
      leave the graph of the operations before it acyclic. */
  ghost predicate Granted(ops: seq<Op>, k: nat) {
    && k < |ops| && ops[k].Begin?
    && ops[k].from != 0 && ops[k].to != 0 && ops[k].from != ops[k].to
    && Acyclic(Apply(ops[..k])[ops[k].from := ops[k].to])
  }

  /** The m-th operation ends the wait of `from` for `to`: it says so, clears the
      graph, or grants the same waiter another wait. */
  ghost predicate Drops(ops: seq<Op>, m: nat, from: Id, to: Id) {
    && m < |ops|
    && (ops[m].Clear? || ops[m] == End(from, to) || (Granted(ops, m) && ops[m].from == from))
  }

  ghost predicate Waits(ops: seq<Op>, k: nat, from: Id, to: Id) {
    && k < |ops| && ops[k] == Begin(from, to) && Granted(ops, k)
    && forall m: nat :: k < m < |ops| ==> !Drops(ops, m, from, to)
  }

  predicate Edge(g: map<Id, Id>, from: Id, to: Id) {
    from in g && g[from] == to
  }

  lemma EdgeStep(ops: seq<Op>, from: Id, to: Id)
    requires ops != []
    ensures var last: nat := |ops| - 1;
      Edge(Apply(ops), from, to) <==>
        (ops[last] == Begin(from, to) && Granted(ops, last)) ||
        (Edge(Apply(ops[..last]), from, to) && !Drops(ops, last, from, to))
  {
    var last: nat := |ops| - 1;
    var g := Apply(ops[..last]);
    AlwaysAcyclic(ops[..last]);
    NoZero(ops[..last]);
    if ops[last].Begin? {
      EdgeClosesCycleIff(g, ops[last].from, ops[last].to);
    }
  }

  lemma {:induction false} NoZero(ops: seq<Op>)
    ensures 0 !in Apply(ops)
  {
    if ops == [] {
    } else {
      NoZero(ops[..|ops| - 1]);
    }
  }

  lemma SameFront(ops: seq<Op>, k: nat, from: Id, to: Id)
    requires ops != [] && k < |ops| - 1
    ensures Granted(ops[..|ops| - 1], k) <==> Granted(ops, k)
    ensures Drops(ops[..|ops| - 1], k, from, to) <==> Drops(ops, k, from, to)
  {
    assert ops[..|ops| - 1][..k] == ops[..k];
  }

  /** The graph has an edge if and only if some wait for it was granted, and has
      neither been ended nor replaced nor cleared since. */
  lemma {:induction false} EdgesExact(ops: seq<Op>, from: Id, to: Id)
    ensures Edge(Apply(ops), from, to) <==> exists k: nat :: Waits(ops, k, from, to)
  {
    if ops == [] {
    } else {
      var last: nat, front := |ops| - 1, ops[..|ops| - 1];
      EdgesExact(front, from, to);
      EdgeStep(ops, from, to);
      forall m: nat | m < last
        ensures (Granted(front, m) <==> Granted(ops, m)) && (Drops(front, m, from, to) <==> Drops(ops, m, from, to))
      {
        SameFront(ops, m, from, to);
      }
      if k: nat :| Waits(front, k, from, to) && !Drops(ops, last, from, to) {
        assert Waits(ops, k, from, to);
      }
      if k: nat :| Waits(ops, k, from, to) && k < last {
        assert !Drops(ops, last, from, to);
        assert Waits(front, k, from, to);
      }
      if ops[last] == Begin(from, to) && Granted(ops, last) {
        assert Waits(ops, last, from, to);
      }
    }
  }
}
