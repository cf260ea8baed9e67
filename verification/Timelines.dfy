/** The queue of future events. */
module Timelines {
  import opened ContainerHeap

  datatype EventKind =
    | Arrival | CombatStart | CombatTick | MacroPulse | VictoryCheck
    | RecruitComplete | ConstructComplete | MatchCleanup

  /** A scheduled event.  `ref` is the identity of the allocated record, so two events with
      equal contents are still two events. */
  datatype Event = Event(ref: nat, at: int, kind: EventKind, unitID: string, version: nat)

  class Timeline {
    const heap: IndexedHeap<Event>
    var next: nat                   // identity of the next allocation
    ghost var pending: set<Event>   // the events not yet popped

    ghost predicate Valid()
      reads this, heap
    {
      && heap.Valid() && pending == heap.elems
      && forall e | e in pending :: e.ref < next && e in heap.key && heap.key[e] == e.at as real
    }

    constructor ()
      ensures Valid() && fresh(heap) && pending == {}
    {
      heap := new IndexedHeap<Event>();
      next, pending := 0, {};
    }

    /** Schedule a new event. */
    method Push(at: int, kind: EventKind, unitID: string, version: nat) returns (ghost e: Event)
      requires Valid()
      modifies this, heap
      ensures Valid() && e !in old(pending) && pending == old(pending) + {e}
      ensures e == Event(old(next), at, kind, unitID, version)
    {
      var ev := Event(next, at, kind, unitID, version);
      heap.Push(ev, at as real);
      next := next + 1;
      pending := pending + {ev};
      e := ev;
    }

    /** The next event, without removing it; none when the queue is empty. */
    method Peek() returns (found: bool, e: Event)
      requires Valid()
      ensures found <==> pending != {}
      ensures found ==> e in pending && forall o | o in pending :: e.at <= o.at
    {
      var n := heap.Len();
      found := n > 0;
      if found {
        heap.RootIsLeastOfAll();
        e := heap.h[0];
      } else {
        e := Event(0, 0, Arrival, "", 0);
      }
    }

    /** Remove and return an earliest event; none when the queue is empty. */
    method Pop() returns (found: bool, e: Event)
      requires Valid()
      modifies this, heap
      ensures Valid() && (found <==> old(pending) != {})
      ensures !found ==> pending == old(pending)
      ensures found ==> e in old(pending) && pending == old(pending) - {e}
      ensures found ==> forall o | o in old(pending) :: e.at <= o.at
    {
      var n := heap.Len();
      found := n > 0;
      if !found {
        e := Event(0, 0, Arrival, "", 0);
        return;
      }
      e := heap.Pop();
      pending := pending - {e};
    }
  }
}

/** How much work an event can still cause before a deadline: every event handled pushes at
    most two more, each at least a millisecond later. */
module Workloads {
  import opened Clock
  import opened Timelines

  function Pow3(n: nat): (p: nat)
    ensures 1 <= p
  {
    if n == 0 then 1 else 3 * Pow3(n - 1)
  }

  lemma {:induction false} Pow3Monotone(a: nat, b: nat)
    requires a <= b
    ensures Pow3(a) <= Pow3(b)
    decreases b
  {
    if a == b {
    } else {
      Pow3Monotone(a, b - 1);
    }
  }

  ghost function Weight(e: Event, now: int): nat {
    if now < e.at then 0 else Pow3((now - e.at) / MILLISECOND + 1)
  }

  ghost function Work(q: set<Event>, now: int): nat {
    if q == {} then 0 else
      var e :| e in q;
      Weight(e, now) + Work(q - {e}, now)
  }

  lemma {:induction false} WorkWithout(q: set<Event>, now: int, e: Event)
    requires e in q
    ensures Work(q, now) == Weight(e, now) + Work(q - {e}, now)
    decreases q
  {
    var z :| z in q && Work(q, now) == Weight(z, now) + Work(q - {z}, now);
    if z == e {
    } else {
      WorkWithout(q - {z}, now, e);
      assert q - {z} - {e} == q - {e} - {z};
      WorkWithout(q - {e}, now, z);
    }
  }

  /** A later event weighs less than a third. */
  lemma LaterWeighsLess(e: Event, o: Event, now: int)
    requires e.at <= now && e.at + MILLISECOND <= o.at
    ensures 3 * Weight(o, now) <= Weight(e, now)
  {
    if o.at <= now {
      var a, b := (now - e.at) / MILLISECOND, (now - o.at) / MILLISECOND;
      assert b + 1 <= a;
      Pow3Monotone(b + 1, a);
    }
  }

  /** From before to after, at most two events were added, all at or after `from`. */
  ghost predicate Added(before: set<Event>, after: set<Event>, most: nat, from: int) {
    && before <= after && |after - before| <= most
    && forall e | e in after && e !in before :: from <= e.at
  }

  lemma AddedNothing(q: set<Event>, most: nat, from: int)
    ensures Added(q, q, most, from)
  {
    assert q - q == {};
  }

  lemma AddedOne(q: set<Event>, e: Event, from: int)
    requires from <= e.at
    ensures Added(q, q + {e}, 1, from)
  {
    assert q + {e} - q <= {e};
    assert |q + {e} - q| <= |{e}| by {
      assert {e} == (q + {e} - q) + ({e} - (q + {e} - q));
    }
  }

  lemma AddedTogether(a: set<Event>, b: set<Event>, c: set<Event>, m: nat, n: nat, from: int)
    requires Added(a, b, m, from) && Added(b, c, n, from)
    ensures Added(a, c, m + n, from)
  {
    assert c - a == (b - a) + (c - b);
  }

  lemma AddedMore(a: set<Event>, b: set<Event>, few: nat, most: nat, from: int)
    requires Added(a, b, few, from) && few <= most
    ensures Added(a, b, most, from)
  {
  }

  /** What one added event contributes. */
  lemma OneAddedWeighs(r: set<Event>, q: set<Event>, e: Event, a: Event, now: int)
    requires r <= q && a in q - r && e.at <= now && e.at + MILLISECOND <= a.at
    ensures Work(q, now) == Weight(a, now) + Work(q - {a}, now) && 3 * Weight(a, now) <= Weight(e, now)
    ensures r <= q - {a} && |q - {a} - r| == |q - r| - 1 && forall o | o in q - {a} - r :: o in q - r
  {
    hide Weight, Work;
    LaterWeighsLess(e, a, now);
    WorkWithout(q, now, a);
    assert q - {a} - r == q - r - {a};
  }

  /** At most `most` added events contribute at most `most` thirds of e's weight. */
  lemma {:induction false} AllAddedWeigh(r: set<Event>, q: set<Event>, e: Event, most: nat, now: int)
    requires e.at <= now && Added(r, q, most, e.at + MILLISECOND)
    ensures 3 * Work(q, now) <= 3 * Work(r, now) + most * Weight(e, now)
    decreases most
  {
    hide Weight, Work;
    if q - r == {} {
      assert q == r;
    } else {
      var a :| a in q - r;
      OneAddedWeighs(r, q, e, a, now);
      AllAddedWeigh(r, q - {a}, e, most - 1, now);
      assert most * Weight(e, now) == (most - 1) * Weight(e, now) + Weight(e, now);
    }
  }

  lemma DueEventsWeigh(e: Event, now: int)
    requires e.at <= now
    ensures 0 < Weight(e, now)
  {
  }

  /** Replacing a due event by at most two later ones lightens the workload. */
  lemma HandlingLightens(q: set<Event>, e: Event, q': set<Event>, now: int)
    requires e in q && e.at <= now && Added(q - {e}, q', 2, e.at + MILLISECOND)
    ensures Work(q', now) < Work(q, now)
  {
    hide Weight, Work;
    WorkWithout(q, now, e);
    AllAddedWeigh(q - {e}, q', e, 2, now);
    DueEventsWeigh(e, now);
  }
}
