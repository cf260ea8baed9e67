/** The invariants of the A* search, on immutable values: why a closed node is final,
    why the goal's cost is optimal when it is closed, and why an exhausted queue means
    that there is no route. */
module AstarSearch {
  import opened Maps

  /** The part of `node` that the queue does not hold (f and index live in the heap). */
  datatype Node = Node(g: real, parent: string, closed: bool)

  type Table = map<string, Node>

  /** The closed nodes, numbered in closing order. */
  type Ranks = map<string, nat>

  /** The problem: a route from start to goal. */
  datatype Query = Query(graph: Graph, start: string, goal: string) {
    ghost predicate Sound() {
      graph.Sound() && start != ""
    }

    /** g + h: the key of a node. */
    function F(t: Table, n: string): real
      requires n in t
    {
      t[n].g + graph.Dist(n, goal)
    }

    /** n was reached over an edge from a closed parent, at the parent's cost plus the edge. */
    ghost predicate Parented(t: Table, rank: Ranks, n: string)
      requires n in t
    {
      var p := t[n].parent;
      && p != "" && p in t && p in rank && graph.HasEdge(p, n)
      && t[n].g == t[p].g + graph.Dist(p, n)
      && (n in rank ==> rank[p] < rank[n])
    }

    /** The parent pointers form a tree rooted at start whose inner nodes are closed. */
    ghost predicate Tree(t: Table, rank: Ranks) {
      && start in t && t[start].g == 0.0 && t[start].parent == ""
      && (if rank == map[] then t.Keys == {start} else start in rank)
      && (forall n | n in rank :: n in t && rank[n] < |rank|)
      && (forall n | n in t :: t[n].closed <==> n in rank)
      && (forall n {:trigger Parented(t, rank, n)} | n in t && n != start :: Parented(t, rank, n))
    }

    /** `bound` separates the keys of the closed nodes from those of the open ones. */
    ghost predicate Bounded(t: Table, rank: Ranks, bound: real) {
      && (forall n {:trigger F(t, n)} | n in t && n in rank :: F(t, n) <= bound)
      && (forall n {:trigger F(t, n)} | n in t && n !in rank :: bound <= F(t, n))
    }

    ghost predicate Inv(t: Table, rank: Ranks, bound: real) {
      Tree(t, rank) && Bounded(t, rank, bound) && t.Keys <= graph.Endpoints() + {start}
    }

    ghost predicate Relaxed(t: Table, u: string, v: string) {
      u in t && v in t && t[v].g <= t[u].g + graph.Dist(u, v)
    }

    /** Every edge out of a closed node has been relaxed, except those of `cur` not in `done`. */
    ghost predicate Explored(t: Table, rank: Ranks, cur: string, done: set<string>) {
      forall u, v {:trigger Relaxed(t, u, v)} | u in rank && graph.HasEdge(u, v) && (u != cur || v in done) ::
          Relaxed(t, u, v)
    }

    ghost predicate FullyExplored(t: Table, rank: Ranks) {
      forall u, v {:trigger Relaxed(t, u, v)} | u in rank && graph.HasEdge(u, v) :: Relaxed(t, u, v)
    }

    function Closed(t: Table, cur: string): Table
      requires cur in t
    {
      t[cur := t[cur].(closed := true)]
    }

    /** Closing the least open node keeps the tree... */
    lemma CloseKeepsTree(t: Table, rank: Ranks, cur: string)
      requires Tree(t, rank) && cur in t && cur !in rank
      ensures Tree(Closed(t, cur), rank[cur := |rank|])
    {
      var t', rank' := Closed(t, cur), rank[cur := |rank|];
      assert |rank'| == |rank| + 1;
      forall n | n in t' && n != start
        ensures Parented(t', rank', n)
      {
        assert Parented(t, rank, n);
      }
    }

    /** ...and raises the bound to its key. */
    lemma CloseRaisesBound(t: Table, rank: Ranks, bound: real, cur: string)
      requires Bounded(t, rank, bound) && cur in t && cur !in rank
      requires forall n {:trigger F(t, n)} | n in t && n !in rank :: F(t, cur) <= F(t, n)
      ensures Bounded(Closed(t, cur), rank[cur := |rank|], F(t, cur))
    {
      var t' := Closed(t, cur);
      assert forall n {:trigger F(t', n)} | n in t :: F(t', n) == F(t, n);
    }

    lemma CloseKeepsExplored(t: Table, rank: Ranks, cur: string)
      requires FullyExplored(t, rank) && cur in t && cur !in rank
      ensures Explored(Closed(t, cur), rank[cur := |rank|], cur, {})
    {
      var t', rank' := Closed(t, cur), rank[cur := |rank|];
      forall u, v | u in rank' && graph.HasEdge(u, v) && u != cur
        ensures Relaxed(t', u, v)
      {
        assert Relaxed(t, u, v);
      }
    }

    lemma Close(t: Table, rank: Ranks, bound: real, cur: string)
      requires Inv(t, rank, bound) && FullyExplored(t, rank) && cur in t && cur !in rank
      requires forall n {:trigger F(t, n)} | n in t && n !in rank :: F(t, cur) <= F(t, n)
      ensures Inv(Closed(t, cur), rank[cur := |rank|], F(t, cur))
      ensures Explored(Closed(t, cur), rank[cur := |rank|], cur, {})
    {
      CloseKeepsTree(t, rank, cur);
      CloseRaisesBound(t, rank, bound, cur);
      CloseKeepsExplored(t, rank, cur);
    }

    /** An edge back to a closed node cannot shorten the way to it: this is where the
        consistency of the straight-line estimate is used. */
    lemma ClosedIsFinal(t: Table, rank: Ranks, cur: string, nb: string)
      requires Sound() && cur in t && Bounded(t, rank, F(t, cur)) && nb in t && nb in rank
      ensures Relaxed(t, cur, nb)
    {
      graph.DistLaws(cur, nb, goal);
      assert F(t, nb) <= F(t, cur);
    }

    /** What one more relaxed neighbour adds to the explored edges. */
    lemma ExploreOneMore(t: Table, rank: Ranks, cur: string, nb: string, done: set<string>)
      requires Explored(t, rank, cur, done) && Relaxed(t, cur, nb)
      ensures Explored(t, rank, cur, done + {nb})
    {
      forall u, v | u in rank && graph.HasEdge(u, v) && (u != cur || v in done + {nb})
        ensures Relaxed(t, u, v)
      {
        assert u != cur || v in done ==> Relaxed(t, u, v);
      }
    }

    lemma ExploredAll(t: Table, rank: Ranks, cur: string, done: set<string>)
      requires Explored(t, rank, cur, done) && forall v | graph.HasEdge(cur, v) :: v in done
      ensures FullyExplored(t, rank)
    {
      forall u, v | u in rank && graph.HasEdge(u, v)
        ensures Relaxed(t, u, v)
      {
      }
    }

    /** The node record written for a neighbour. */
    function Improved(t: Table, cur: string, nb: string): Table
      requires cur in t
    {
      t[nb := Node(t[cur].g + graph.Dist(cur, nb), cur, false)]
    }

    /** Writing an improved cost to an open or new neighbour keeps the tree... */
    lemma RelaxKeepsTree(t: Table, rank: Ranks, cur: string, nb: string)
      requires Tree(t, rank) && cur in rank && cur != "" && graph.HasEdge(cur, nb) && nb !in rank
      ensures Tree(Improved(t, cur, nb), rank)
    {
      var t' := Improved(t, cur, nb);
      forall n | n in t' && n != start
        ensures Parented(t', rank, n)
      {
        assert n != nb ==> Parented(t, rank, n);
      }
    }

    /** ...keeps the bound, by consistency of the estimate... */
    lemma RelaxKeepsBound(t: Table, rank: Ranks, cur: string, nb: string)
      requires Sound() && cur in t && cur in rank && nb !in rank && Bounded(t, rank, F(t, cur))
      ensures Bounded(Improved(t, cur, nb), rank, F(t, cur))
    {
      var t' := Improved(t, cur, nb);
      graph.DistLaws(cur, nb, goal);
      assert forall n {:trigger F(t', n)} | n in t && n != nb :: F(t', n) == F(t, n);
      assert F(t', nb) == t[cur].g + graph.Dist(cur, nb) + graph.Dist(nb, goal);
    }

    /** ...and leaves every relaxed edge relaxed. */
    lemma RelaxKeepsExplored(t: Table, rank: Ranks, cur: string, nb: string, done: set<string>)
      requires Explored(t, rank, cur, done) && cur in t && cur in rank && nb !in rank
      requires nb in t ==> t[cur].g + graph.Dist(cur, nb) < t[nb].g
      ensures Explored(Improved(t, cur, nb), rank, cur, done + {nb})
    {
      var t' := Improved(t, cur, nb);
      forall u, v | u in rank && graph.HasEdge(u, v) && (u != cur || v in done + {nb})
        ensures Relaxed(t', u, v)
      {
        assert u != cur || v in done ==> Relaxed(t, u, v);
      }
    }

    lemma Relax(t: Table, rank: Ranks, cur: string, nb: string, done: set<string>)
      requires Sound() && cur in t && Inv(t, rank, F(t, cur)) && Explored(t, rank, cur, done)
      requires cur in rank && graph.HasEdge(cur, nb)
      requires nb !in rank && (nb in t ==> t[cur].g + graph.Dist(cur, nb) < t[nb].g)
      ensures Inv(Improved(t, cur, nb), rank, F(t, cur))
      ensures Explored(Improved(t, cur, nb), rank, cur, done + {nb})
    {
      graph.EdgeEnds(cur, nb);
      RelaxKeepsTree(t, rank, cur, nb);
      RelaxKeepsBound(t, rank, cur, nb);
      RelaxKeepsExplored(t, rank, cur, nb, done);
    }

    /** The queue holds exactly the discovered nodes that are not closed, keyed by f = g + h. */
    ghost predicate Queued(t: Table, rank: Ranks, elems: set<string>, key: map<string, real>) {
      && elems == t.Keys - rank.Keys
      && forall n {:trigger F(t, n)} | n in t && n in elems :: n in key && key[n] == F(t, n)
    }

    lemma LeastQueued(t: Table, rank: Ranks, elems: set<string>, key: map<string, real>, cur: string)
      requires Queued(t, rank, elems, key) && cur in elems
      requires forall y | y in elems :: cur in key && y in key && key[cur] <= key[y]
      ensures cur in t && cur !in rank
      ensures forall n {:trigger F(t, n)} | n in t && n !in rank :: F(t, cur) <= F(t, n)
      ensures Queued(Closed(t, cur), rank[cur := |rank|], elems - {cur}, key)
    {
      var t' := Closed(t, cur);
      assert cur in t && F(t, cur) == key[cur];
      assert forall n {:trigger F(t', n)} | n in t :: F(t', n) == F(t, n);
    }

    lemma RequeueKeepsQueued(t: Table, rank: Ranks, elems: set<string>, key: map<string, real>, cur: string, nb: string)
      requires Queued(t, rank, elems, key) && cur in t && cur in rank && nb !in rank
      ensures Queued(Improved(t, cur, nb), rank, elems + {nb}, key[nb := F(Improved(t, cur, nb), nb)])
    {
      var t', key' := Improved(t, cur, nb), key[nb := F(Improved(t, cur, nb), nb)];
      forall n | n in t' && n in elems + {nb}
        ensures n in key' && key'[n] == F(t', n)
      {
        assert n != nb ==> F(t', n) == F(t, n);
      }
    }

    /** From a closed node, every walk to the goal is at least as long as what is left. */
    lemma {:induction false} WalkIsNoShorter(t: Table, rank: Ranks, w: seq<string>)
      requires Sound() && goal in t && goal in rank && Bounded(t, rank, F(t, goal))
      requires Explored(t, rank, goal, {})
      requires graph.IsWalk(w) && w[|w| - 1] == goal && w[0] in rank && w[0] in t
      ensures t[goal].g <= t[w[0]].g + graph.Length(w)
      decreases |w|
    {
      graph.EstimateAlongWalk(w, goal);
      if w[0] != goal {
        graph.WalkTail(w);
        var v := w[1..];
        assert Relaxed(t, w[0], w[1]);
        assert graph.Length(w) == graph.Dist(w[0], w[1]) + graph.Length(v);
        if v[0] in rank {
          WalkIsNoShorter(t, rank, v);
        } else {
          graph.EstimateAlongWalk(v, goal);
          assert F(t, goal) <= F(t, v[0]);
        }
      }
    }

    /** When the goal is closed its cost is a lower bound on every route. */
    lemma GoalIsOptimal(t: Table, rank: Ranks, w: seq<string>)
      requires Sound() && goal in t && goal in rank && Inv(t, rank, F(t, goal))
      requires Explored(t, rank, goal, {}) && graph.Connects(w, start, goal)
      ensures t[goal].g <= graph.Length(w)
    {
      WalkIsNoShorter(t, rank, w);
    }

    /** When every node is closed, no walk leaves the closed set. */
    lemma {:induction false} ExhaustedMeansUnreachable(t: Table, rank: Ranks, w: seq<string>)
      requires FullyExplored(t, rank) && rank.Keys == t.Keys
      requires graph.IsWalk(w) && w[0] in rank
      ensures w[|w| - 1] in rank
      decreases |w|
    {
      if |w| == 1 {
      } else {
        graph.WalkTail(w);
        assert Relaxed(t, w[0], w[1]);
        ExhaustedMeansUnreachable(t, rank, w[1..]);
      }
    }
  }
}
