/** Go's string order (`a < b`) and `sort.Strings` over the keys of a map. */
module StringOrder {

  predicate Less(a: string, b: string) {
    |b| > 0 && (|a| == 0 || a[0] < b[0] || (a[0] == b[0] && Less(a[1..], b[1..])))
  }

  lemma {:induction false} Irreflexive(a: string)
    ensures !Less(a, a)
  {
    if |a| == 0 {
    } else {
      Irreflexive(a[1..]);
    }
  }

  lemma {:induction false} Transitive(a: string, b: string, c: string)
    requires Less(a, b) && Less(b, c)
    ensures Less(a, c)
  {
    if |a| == 0 || a[0] != b[0] || b[0] != c[0] {
    } else {
      Transitive(a[1..], b[1..], c[1..]);
    }
  }

  lemma {:induction false} Total(a: string, b: string)
    ensures Less(a, b) || a == b || Less(b, a)
  {
    if |a| == 0 || |b| == 0 || a[0] != b[0] {
    } else {
      Total(a[1..], b[1..]);
      assert a[1..] == b[1..] ==> a == [a[0]] + a[1..] == [b[0]] + b[1..] == b;
    }
  }

  lemma Asymmetric(a: string, b: string)
    requires Less(a, b)
    ensures !Less(b, a) && a != b
  {
    Irreflexive(a);
    if Less(b, a) {
      Transitive(a, b, a);
    }
  }

  /** a and b agree up to their characters at i, and differ there. */
  predicate DifferAt(a: string, b: string, i: int) {
    0 <= i < |a| && i < |b| && a[..i] == b[..i] && a[i] != b[i]
  }

  /** a comes before b exactly if it is only the beginning of b, or has the smaller character where they first
      differ. */
  lemma {:induction false} LessIff(a: string, b: string)
    ensures Less(a, b) <==> a < b || exists i :: DifferAt(a, b, i) && a[i] < b[i]
  {
    if |a| == 0 || |b| == 0 {
    } else if a[0] != b[0] {
      assert DifferAt(a, b, 0);
    } else {
      LessIff(a[1..], b[1..]);
      assert a == [a[0]] + a[1..] && b == [b[0]] + b[1..];
      forall i
        ensures DifferAt(a, b, i + 1) <==> DifferAt(a[1..], b[1..], i)
      {
        if 0 <= i < |a| - 1 && i < |b| - 1 {
          assert a[..i + 1] == [a[0]] + a[1..][..i] && b[..i + 1] == [b[0]] + b[1..][..i];
          assert a[1..][..i] == a[..i + 1][1..] && b[1..][..i] == b[..i + 1][1..];
        }
      }
      if exists i :: DifferAt(a[1..], b[1..], i) && a[1..][i] < b[1..][i] {
        var i :| DifferAt(a[1..], b[1..], i) && a[1..][i] < b[1..][i];
        assert DifferAt(a, b, i + 1);
      }
      if exists i :: DifferAt(a, b, i) && a[i] < b[i] {
        var i :| DifferAt(a, b, i) && a[i] < b[i];
        assert DifferAt(a, b, i - 1 + 1);
      }
    }
  }

  /** Strictly increasing, hence without repetition. */
  ghost predicate Sorted(s: seq<string>) {
    forall i, j | 0 <= i < j < |s| :: Less(s[i], s[j])
  }

  ghost function Elements(s: seq<string>): (r: set<string>)
    ensures forall x :: x in r <==> x in s
  {
    set x | x in s
  }

  lemma ElementsOneMore(s: seq<string>, i: nat)
    requires i < |s|
    ensures Elements(s[..i + 1]) == Elements(s[..i]) + {s[i]}
  {
    assert s[..i + 1] == s[..i] + [s[i]];
  }

  /** Where x goes in a sorted sequence. */
  method Position(s: seq<string>, x: string) returns (p: nat)
    requires Sorted(s) && x !in s
    ensures p <= |s|
    ensures forall i | 0 <= i < p :: Less(s[i], x)
    ensures forall i | p <= i < |s| :: Less(x, s[i])
  {
    p := 0;
    while p < |s| && Less(s[p], x)
      invariant p <= |s| && forall i | 0 <= i < p :: Less(s[i], x)
    {
      p := p + 1;
    }
    forall i | p <= i < |s|
      ensures Less(x, s[i])
    {
      Total(s[p], x);
      if p < i {
        Transitive(x, s[p], s[i]);
      }
    }
  }

  /** Collect the keys in any order and sort them. */
  method SortedKeys(keys: set<string>) returns (out: seq<string>)
    ensures Sorted(out) && Elements(out) == keys
  {
    out := [];
    var rest := keys;
    while rest != {}
      invariant rest <= keys && Sorted(out) && Elements(out) == keys - rest
      decreases rest
    {
      var x :| x in rest;
      var p := Position(out, x);
      ghost var was := out;
      out := out[..p] + [x] + out[p..];
      InsertKeepsSorted(was, x, p);
      rest := rest - {x};
    }
  }

  lemma InsertKeepsSorted(s: seq<string>, x: string, p: nat)
    requires Sorted(s) && p <= |s|
    requires forall i | 0 <= i < p :: Less(s[i], x)
    requires forall i | p <= i < |s| :: Less(x, s[i])
    ensures Sorted(s[..p] + [x] + s[p..]) && Elements(s[..p] + [x] + s[p..]) == Elements(s) + {x}
  {
    var r := s[..p] + [x] + s[p..];
    InsertedElements(s, x, p);
    assert forall k | 0 <= k < |r| :: r[k] == if k < p then s[k] else if k == p then x else s[k - 1];
  }

  lemma InsertedElements(s: seq<string>, x: string, p: nat)
    requires p <= |s|
    ensures Elements(s[..p] + [x] + s[p..]) == Elements(s) + {x}
  {
    assert s == s[..p] + s[p..];
    forall y
      ensures y in s[..p] + [x] + s[p..] <==> y in s || y == x
    {
      assert y in s <==> y in s[..p] || y in s[p..];
    }
  }

  /** A sorted list is determined by its elements. */
  lemma {:induction false} SortedIsUnique(a: seq<string>, b: seq<string>)
    requires Sorted(a) && Sorted(b) && Elements(a) == Elements(b)
    ensures a == b
  {
    EmptyElements(a);
    EmptyElements(b);
    if a == [] {
    } else {
      assert a[0] in Elements(b) && b[0] in Elements(a);
      HeadIsLeast(a, b[0]);
      HeadIsLeast(b, a[0]);
      if a[0] != b[0] {
        Asymmetric(a[0], b[0]);
      }
      TailElements(a);
      TailElements(b);
      SortedIsUnique(a[1..], b[1..]);
    }
  }

  lemma EmptyElements(s: seq<string>)
    ensures Elements(s) == {} <==> s == []
  {
    if s != [] {
      assert s[0] in Elements(s);
    }
  }

  lemma HeadIsLeast(s: seq<string>, x: string)
    requires Sorted(s) && s != [] && x in s
    ensures s[0] == x || Less(s[0], x)
  {
  }

  lemma TailElements(s: seq<string>)
    requires Sorted(s) && s != []
    ensures Elements(s[1..]) == Elements(s) - {s[0]}
  {
    forall x | x in Elements(s) && x != s[0]
      ensures x in s[1..]
    {
      var i :| 0 <= i < |s| && s[i] == x;
      assert s[1..][i - 1] == x;
    }
    if s[0] in s[1..] {
      var i :| 0 <= i < |s[1..]| && s[1..][i] == s[0];
      assert Less(s[0], s[i + 1]);
      Irreflexive(s[0]);
    }
  }
}
