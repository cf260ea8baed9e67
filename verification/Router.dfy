/** The router: A* over provinces, and the legs a unit travels. */
module Router {
  import opened Geometry
  import opened StringOrder
  import opened Maps
  import opened AstarSearch
  import opened ContainerHeap

  ghost predicate Simple(p: seq<string>) {
    forall i, j | 0 <= i < j < |p| :: p[i] != p[j]
  }

  /** p leads from start to goal, visits nothing twice, and no walk is shorter. */
  ghost predicate Shortest(graph: Graph, p: seq<string>, start: string, goal: string) {
    && graph.Connects(p, start, goal)
    && Simple(p)
    && forall w | graph.Connects(w, start, goal) :: graph.Length(p) <= graph.Length(w)
  }

  ghost predicate Reachable(graph: Graph, start: string, goal: string) {
    exists w :: graph.Connects(w, start, goal)
  }

  ghost predicate Ascending(w: seq<string>, rank: Ranks) {
    && (forall i | 0 <= i < |w| :: w[i] in rank)
    && forall i, j | 0 <= i < j < |w| && w[i] in rank && w[j] in rank :: rank[w[i]] < rank[w[j]]
  }

  ghost predicate Mirrors<T(!new)>(a: seq<T>, b: seq<T>) {
    |a| == |b| && forall k | 0 <= k < |a| :: a[k] == b[|a| - 1 - k]
  }

  /** Reverse in place by swapping from both ends. */
  method Reverse(s: seq<string>) returns (out: seq<string>)
    ensures Mirrors(out, s)
  {
    out := s;
    var i, j := 0, |s| - 1;
    while i < j
      invariant 0 <= i <= |s| && j == |s| - 1 - i && i <= j + 2 && |out| == |s|
      invariant forall k | 0 <= k < i :: out[k] == s[|s| - 1 - k]
      invariant forall k | j < k < |s| :: out[k] == s[|s| - 1 - k]
      invariant forall k | i <= k <= j :: out[k] == s[k]
    {
      out := out[i := out[j]][j := out[i]];
      i, j := i + 1, j - 1;
    }
  }

  /** w leads from cur to the goal over parent pointers. */
  ghost predicate Traced(q: Query, t: Table, rank: Ranks, cur: string, w: seq<string>, goal: string) {
    && cur in t && cur in rank && goal in t && q.graph.Connects(w, cur, goal) && Ascending(w, rank)
    && q.graph.Length(w) == t[goal].g - t[cur].g
  }

  lemma TraceBegins(q: Query, t: Table, rank: Ranks, goal: string)
    requires goal in t && goal in rank
    ensures Traced(q, t, rank, goal, [goal], goal)
  {
  }

  /** One more parent. */
  lemma TraceGoesOn(q: Query, t: Table, rank: Ranks, cur: string, w: seq<string>, goal: string)
    requires q.Sound() && q.Tree(t, rank) && Traced(q, t, rank, cur, w, goal) && t[cur].parent != ""
    ensures var p := t[cur].parent;
            Traced(q, t, rank, p, [p] + w, goal) && p in rank && cur in rank && rank[p] < rank[cur]
  {
    assert q.Parented(t, rank, cur);
    q.graph.WalkCons(t[cur].parent, w);
  }

  /** Back at the start. */
  lemma TraceEnds(q: Query, t: Table, rank: Ranks, cur: string, w: seq<string>, goal: string)
    requires q.Sound() && q.Tree(t, rank) && Traced(q, t, rank, cur, w, goal) && t[cur].parent == ""
    ensures q.graph.Connects(w, q.start, goal) && Simple(w) && q.graph.Length(w) == t[goal].g
  {
    assert cur == q.start by { assert cur != q.start ==> q.Parented(t, rank, cur); }
  }

  /** Follow the parent pointers from the goal and reverse what was collected. */
  method Reconstruct(ghost q: Query, t: Table, ghost rank: Ranks, goal: string) returns (path: seq<string>)
    requires q.Sound() && q.Tree(t, rank) && goal in rank && goal in t
    ensures q.graph.Connects(path, q.start, goal) && Simple(path)
    ensures q.graph.Length(path) == t[goal].g
  {
    hide Query.Sound, Query.Tree, Graph.Connects, Simple, Ascending;
    var out := [goal];
    var cur := goal;
    ghost var w := [goal];
    TraceBegins(q, t, rank, goal);
    while cur in t && t[cur].parent != ""
      invariant cur in rank && Traced(q, t, rank, cur, w, goal) && Mirrors(out, w)
      decreases rank[cur]
    {
      TraceGoesOn(q, t, rank, cur, w, goal);
      w := [t[cur].parent] + w;
      cur := t[cur].parent;
      out := out + [cur];
    }
    TraceEnds(q, t, rank, cur, w, goal);
    path := Reverse(out);
    assert path == w;
  }

  /** One iteration of the loop over the neighbours of the node just closed. */
  method RelaxEdge(q: Query, open: IndexedHeap<string>, t: Table, cur: string, nb: string,
                   ghost rank: Ranks, ghost done: set<string>) returns (t': Table)
    requires q.Sound() && open.Valid()
    requires cur in t && q.Inv(t, rank, q.F(t, cur)) && q.Explored(t, rank, cur, done)
    requires cur in rank && q.graph.HasEdge(cur, nb)
    requires q.Queued(t, rank, open.elems, open.key)
    modifies open
    ensures open.Valid() && cur in t' && t'[cur] == t[cur]
    ensures q.Inv(t', rank, q.F(t', cur)) && q.Explored(t', rank, cur, done + {nb})
    ensures q.Queued(t', rank, open.elems, open.key)
  {
    t' := t;
    var tentG := t[cur].g + q.graph.Dist(cur, nb);
    var seen := nb in t;
    if seen && t[nb].closed {
      q.ClosedIsFinal(t, rank, cur, nb);
      q.ExploreOneMore(t, rank, cur, nb, done);
      return;
    }
    if seen && tentG >= t[nb].g {
      q.ExploreOneMore(t, rank, cur, nb, done);
      return;
    }
    q.Relax(t, rank, cur, nb, done);
    q.RequeueKeepsQueued(t, rank, open.elems, open.key, cur, nb);
    t' := q.Improved(t, cur, nb);
    if nb !in open.index || open.index[nb] < 0 {
      open.Push(nb, q.F(t', nb));
    } else {
      assert nb in open.elems && open.elems + {nb} == open.elems;
      open.Fix(nb, q.F(t', nb));
    }
  }

  /** Every neighbour of the node just closed is relaxed. */
  method Expand(q: Query, open: IndexedHeap<string>, t: Table, cur: string, ghost rank: Ranks)
    returns (t': Table)
    requires q.Sound() && open.Valid()
    requires cur in t && q.Inv(t, rank, q.F(t, cur)) && q.Explored(t, rank, cur, {})
    requires cur in rank && q.Queued(t, rank, open.elems, open.key)
    modifies open
    ensures open.Valid() && cur in t' && t'[cur] == t[cur]
    ensures q.Inv(t', rank, q.F(t', cur)) && q.FullyExplored(t', rank)
    ensures q.Queued(t', rank, open.elems, open.key)
  {
    var nbs := Neighbors(q.graph, cur);
    t' := t;
    for i := 0 to |nbs|
      invariant open.Valid() && cur in t' && t'[cur] == t[cur]
      invariant q.Inv(t', rank, q.F(t', cur)) && q.Explored(t', rank, cur, Elements(nbs[..i]))
      invariant q.Queued(t', rank, open.elems, open.key)
    {
      ghost var done := Elements(nbs[..i]);
      t' := RelaxEdge(q, open, t', cur, nbs[i], rank, done);
      assert Elements(nbs[..i + 1]) == done + {nbs[i]};
    }
    assert nbs[..|nbs|] == nbs;
    q.ExploredAll(t', rank, cur, Elements(nbs));
  }

  /** The search between two rounds: the queue holds the open nodes, and the goal is not closed. */
  ghost predicate Searching(q: Query, t: Table, rank: Ranks, bound: real, elems: set<string>, key: map<string, real>) {
    && q.Inv(t, rank, bound) && q.FullyExplored(t, rank) && q.Queued(t, rank, elems, key)
    && q.goal !in rank && rank.Keys <= q.graph.Endpoints() + {q.start}
  }

  /** cur has just been closed, and its neighbours are still to be looked at. */
  ghost predicate Closing(q: Query, t: Table, rank: Ranks, cur: string, elems: set<string>, key: map<string, real>) {
    && cur in t && cur in rank && q.Inv(t, rank, q.F(t, cur)) && q.Explored(t, rank, cur, {})
    && q.Queued(t, rank, elems, key) && rank.Keys <= q.graph.Endpoints() + {q.start}
  }

  lemma QueryIsSound(q: Query)
    requires q.graph.Sound() && q.start != ""
    ensures q.Sound()
  {
  }

  lemma SearchBegins(q: Query, t: Table, key: map<string, real>)
    requires t == map[q.start := Node(0.0, "", false)] && q.start in key
    requires key[q.start] == q.graph.Dist(q.start, q.goal)
    ensures Searching(q, t, map[], q.F(t, q.start), {q.start}, key)
  {
  }

  /** The least node of the queue is open, and can be closed. */
  lemma LeastCanBeClosed(q: Query, t: Table, rank: Ranks, bound: real, elems: set<string>, key: map<string, real>,
      cur: string)
    requires Searching(q, t, rank, bound, elems, key) && cur in elems
    requires forall y | y in elems :: cur in key && y in key && key[cur] <= key[y]
    ensures cur in t && cur !in rank && !t[cur].closed
    ensures Closing(q, q.Closed(t, cur), rank[cur := |rank|], cur, elems - {cur}, key)
  {
    q.LeastQueued(t, rank, elems, key, cur);
    q.Close(t, rank, bound, cur);
  }

  /** The top of the loop: the least node of the queue, which is never closed already, is closed. */
  method CloseLeast(q: Query, open: IndexedHeap<string>, t: Table, ghost rank: Ranks, ghost bound: real)
    returns (cur: string, t': Table, ghost rank': Ranks)
    requires open.Valid() && open.elems != {} && Searching(q, t, rank, bound, open.elems, open.key)
    modifies open
    ensures open.Valid() && Closing(q, t', rank', cur, open.elems, open.key)
    ensures cur !in rank && rank' == rank[cur := |rank|]
  {
    hide IndexedHeap.Valid, Searching, Closing;
    ghost var queued := open.elems;
    cur := open.Pop();
    LeastCanBeClosed(q, t, rank, bound, queued, open.key, cur);
    if t[cur].closed {
      assert false;
    }
    t', rank' := t[cur := t[cur].(closed := true)], rank[cur := |rank|];
  }

  /** The rest of the loop: a node that is not the goal is expanded. */
  method SearchOn(q: Query, open: IndexedHeap<string>, t: Table, cur: string, ghost rank: Ranks)
    returns (t': Table, ghost bound: real)
    requires q.Sound() && open.Valid() && Closing(q, t, rank, cur, open.elems, open.key) && q.goal !in rank
    modifies open
    ensures open.Valid() && Searching(q, t', rank, bound, open.elems, open.key)
  {
    hide IndexedHeap.Valid, Query.Sound, Query.Inv, Query.Explored, Query.FullyExplored, Query.Queued;
    t' := Expand(q, open, t, cur, rank);
    bound := q.F(t', cur);
  }

  /** The goal has been closed: follow the parent pointers. */
  method Answer(q: Query, t: Table, ghost rank: Ranks, ghost elems: set<string>, ghost key: map<string, real>)
    returns (path: seq<string>)
    requires q.Sound() && Closing(q, t, rank, q.goal, elems, key)
    ensures Shortest(q.graph, path, q.start, q.goal) && Reachable(q.graph, q.start, q.goal)
  {
    hide Shortest, Reachable, Query.Sound, Query.Tree, Query.Bounded, Query.Explored, Query.Queued;
    path := Reconstruct(q, t, rank, q.goal);
    Found(q, t, rank, elems, key, path);
  }

  /** A* from start to goal.  It always terminates, pops every node at most once, finds a
      route exactly when there is one, and then a shortest one. */
  method AStar(graph: Graph, start: string, goal: string)
    returns (path: seq<string>, ok: bool, ghost pops: nat)
    requires graph.Sound() && start != ""
    ensures ok ==> Shortest(graph, path, start, goal)
    ensures ok <==> Reachable(graph, start, goal)
    ensures pops <= |graph.Endpoints() + {start}|
  {
    hide IndexedHeap.Valid, Searching, Closing, Graph.Sound, Shortest, Reachable, Query.Sound;
    var q := Query(graph, start, goal);
    QueryIsSound(q);
    ghost var all := graph.Endpoints() + {start};
    var open := new IndexedHeap<string>();
    var t: Table := map[start := Node(0.0, "", false)];
    open.Push(start, graph.Dist(start, goal));
    ghost var rank: Ranks, bound := map[], q.F(t, start);
    SearchBegins(q, t, open.key);
    path, pops := [], 0;
    var n := open.Len();
    while n > 0
      invariant open.Valid() && fresh(open) && (n == 0 <==> open.elems == {})
      invariant Searching(q, t, rank, bound, open.elems, open.key)
      invariant pops == |rank| && goal !in rank
      decreases all - rank.Keys
    {
      var cur;
      ghost var before := rank;
      cur, t, rank := CloseLeast(q, open, t, rank, bound);
      pops := pops + 1;
      OneMoreClosed(q, t, before, rank, cur, open.elems, open.key);
      if cur == goal {
        path := Answer(q, t, rank, open.elems, open.key);
        return path, true, pops;
      }
      t, bound := SearchOn(q, open, t, cur, rank);
      n := open.Len();
    }
    ok := false;
    NotFound(q, t, rank, bound, open.key);
  }

  lemma SubsetSize<T>(a: set<T>, b: set<T>)
    requires a <= b
    ensures |a| <= |b|
  {
    assert b == a + (b - a);
  }

  lemma OneMoreClosed(q: Query, t: Table, rank: Ranks, rank': Ranks, cur: string, elems: set<string>,
      key: map<string, real>)
    requires Closing(q, t, rank', cur, elems, key) && cur !in rank && rank' == rank[cur := |rank|]
    ensures |rank'| == |rank| + 1
    ensures |rank'| <= |q.graph.Endpoints() + {q.start}|
    ensures q.graph.Endpoints() + {q.start} - rank'.Keys < q.graph.Endpoints() + {q.start} - rank.Keys
  {
    hide Query.Tree, Query.Bounded, Query.Explored, Query.Queued;
    SubsetSize(rank'.Keys, q.graph.Endpoints() + {q.start});
    assert cur in q.graph.Endpoints() + {q.start} - rank.Keys;
  }

  /** The goal has been closed: the path to it is a shortest one. */
  lemma Found(q: Query, t: Table, rank: Ranks, elems: set<string>, key: map<string, real>, path: seq<string>)
    requires q.Sound() && Closing(q, t, rank, q.goal, elems, key)
    requires q.graph.Connects(path, q.start, q.goal) && Simple(path) && q.graph.Length(path) == t[q.goal].g
    ensures Shortest(q.graph, path, q.start, q.goal) && Reachable(q.graph, q.start, q.goal)
  {
    forall w | q.graph.Connects(w, q.start, q.goal)
      ensures q.graph.Length(path) <= q.graph.Length(w)
    {
      q.GoalIsOptimal(t, rank, w);
    }
  }

  /** The queue is empty: no walk leads to the goal. */
  lemma NotFound(q: Query, t: Table, rank: Ranks, bound: real, key: map<string, real>)
    requires Searching(q, t, rank, bound, {}, key)
    ensures !Reachable(q.graph, q.start, q.goal) && |rank| <= |q.graph.Endpoints() + {q.start}|
  {
    SubsetSize(rank.Keys, q.graph.Endpoints() + {q.start});
    assert rank.Keys == t.Keys;
    forall w | q.graph.Connects(w, q.start, q.goal)
      ensures false
    {
      q.ExhaustedMeansUnreachable(t, rank, w);
    }
  }
}
