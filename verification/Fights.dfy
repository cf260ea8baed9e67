/** The fight loop on values: one champion per coalition, the strongest of the others strikes
    the weakest until one is left.  When it ends, who wins, and exactly when it cannot end. */
module Fights {

  datatype Champion = Champion(owner: string, kind: string, hp: real)

  /** Champions by the id of their coalition. */
  type Arena = map<string, Champion>

  /** The rock-paper-scissors table; unknown types deal a flat 30. */
  function UnitDamage(attacker: string, defender: string): (d: real)
    ensures 22.0 <= d <= 38.0
  {
    match (attacker, defender)
    case ("infantry", "cavalry") => 22.0
    case ("infantry", "armor") => 38.0
    case ("cavalry", "infantry") => 38.0
    case ("cavalry", "armor") => 22.0
    case ("armor", "infantry") => 22.0
    case ("armor", "cavalry") => 38.0
    case _ => 30.0
  }

  ghost predicate Alive(f: Arena) {
    forall k {:trigger f[k]} | k in f :: f[k].hp > 0.0
  }

  /** No champion's owner is the key of another champion: keys are coalition leaders. */
  ghost predicate Unambiguous(f: Arena) {
    forall k {:trigger f[k].owner in f} | k in f && f[k].owner in f :: f[k].owner == k
  }

  ghost predicate Weakest(f: Arena, w: string) {
    w in f && forall k {:trigger f[k]} | k in f :: f[w].hp <= f[k].hp
  }

  ghost predicate StrongestBut(f: Arena, w: string, a: string) {
    a in f && a != w && forall k {:trigger f[k]} | k in f && k != w :: f[k].hp <= f[a].hp
  }

  /** One round: w is struck, and if it dies the entry under its owner's name is deleted. */
  ghost function Strike(f: Arena, w: string, a: string): Arena
    requires w in f && a in f
  {
    var hurt := f[w].(hp := f[w].hp - UnitDamage(f[a].kind, f[w].kind));
    if hurt.hp <= 0.0 then f[w := hurt] - {hurt.owner} else f[w := hurt]
  }

  ghost predicate Step(f: Arena, g: Arena) {
    exists w, a :: Weakest(f, w) && StrongestBut(f, w, a) && g == Strike(f, w, a)
  }

  ghost predicate IsRun(fs: seq<Arena>) {
    |fs| > 0 && forall i {:trigger fs[i]} | 0 < i < |fs| :: Step(fs[i - 1], fs[i])
  }

  /** Every champion is filed under its owner's name, or is stronger than all the others. */
  ghost predicate Settles(f: Arena) {
    forall k {:trigger f[k]} | k in f ::
      f[k].owner == k || forall j | j in f && j != k :: f[j].hp < f[k].hp
  }

  /** At most the weakest champion has been hurt since f0, and a strongest one of f0 is unhurt. */
  ghost predicate FightInv(f0: Arena, f: Arena) {
    && f.Keys <= f0.Keys && Alive(f)
    && (forall k {:trigger f[k]} | k in f && k in f0 :: f[k].owner == f0[k].owner && f[k].kind == f0[k].kind)
    && (forall k, j {:trigger f[k], f[j]} | k in f && j in f && k in f0 && f[k] != f0[k] && j != k :: f[k].hp < f[j].hp)
    && exists t :: UnhurtTop(f0, f, t)
  }

  ghost predicate UnhurtTop(f0: Arena, f: Arena, t: string) {
    t in f0 && t in f && f[t] == f0[t] && forall k {:trigger f0[k]} | k in f0 :: f0[k].hp <= f0[t].hp
  }

  lemma {:induction false} TopExists(f: Arena)
    requires f != map[]
    ensures exists t :: UnhurtTop(f, f, t)
    decreases |f|
  {
    var z :| z in f;
    var g := f - {z};
    assert forall k :: k in f <==> k in g || k == z;
    if g == map[] {
      assert UnhurtTop(f, f, z);
    } else {
      assert |g| < |f|;
      TopExists(g);
      var t :| UnhurtTop(g, g, t);
      assert UnhurtTop(f, f, if f[t].hp < f[z].hp then z else t);
    }
  }

  lemma FightStart(f: Arena)
    requires f != map[] && Alive(f)
    ensures FightInv(f, f)
  {
    TopExists(f);
  }

  /** A round of a fight that settles strikes a champion filed under its own owner. */
  lemma WeakestIsFiled(f: Arena, w: string, a: string)
    requires Settles(f) && Weakest(f, w) && StrongestBut(f, w, a)
    ensures f[w].owner == w
  {
    assert f[w].hp <= f[a].hp;
  }

  lemma TopSurvives(f0: Arena, f: Arena, w: string, a: string)
    requires FightInv(f0, f) && Weakest(f, w) && StrongestBut(f, w, a) && f[w].owner == w
    ensures exists t :: UnhurtTop(f0, Strike(f, w, a), t)
  {
    var g := Strike(f, w, a);
    var t :| UnhurtTop(f0, f, t);
    if t == w {
      assert f[a].hp == f[w].hp;
      assert UnhurtTop(f0, g, a);
    } else {
      assert UnhurtTop(f0, g, t);
    }
  }

  lemma StrikeKeepsSettling(f: Arena, w: string, a: string)
    requires Settles(f) && Weakest(f, w) && StrongestBut(f, w, a)
    ensures Settles(Strike(f, w, a))
  {
    WeakestIsFiled(f, w, a);
    var g := Strike(f, w, a);
    forall k | k in g
      ensures g[k].owner == k || forall j | j in g && j != k :: g[j].hp < g[k].hp
    {
      assert k in f && (k != w ==> g[k] == f[k]);
    }
  }

  lemma FightStep(f0: Arena, f: Arena, w: string, a: string)
    requires FightInv(f0, f) && Weakest(f, w) && StrongestBut(f, w, a) && f[w].owner == w
    ensures FightInv(f0, Strike(f, w, a))
  {
    TopSurvives(f0, f, w, a);
    var g := Strike(f, w, a);
    forall k | k in g && g[k] != f0[k]
      ensures forall j | j in g && j != k :: g[k].hp < g[j].hp
    {
      if k != w {
        assert false;
      }
    }
  }

  /** Rounds a champion lasts when every blow takes the least possible damage. */
  function Hits(hp: real): (n: nat)
    ensures n == 0 <==> hp <= 0.0
    ensures 22.0 * (n as real - 1.0) <= hp || n == 0
  {
    if hp <= 0.0 then 0 else
      assert (-hp / 22.0).Floor < 0;
      -((-hp / 22.0).Floor)
  }

  lemma HitsDrop(hp: real, d: real)
    requires hp > 0.0 && d >= 22.0
    ensures Hits(hp - d) < Hits(hp)
  {
    var x, y := -hp / 22.0, -(hp - d) / 22.0;
    assert y == x + d / 22.0 && d / 22.0 >= 1.0;
    assert y.Floor >= (x + 1.0).Floor;
  }

  /** The rounds that all champions together last. */
  ghost function Toll(f: Arena): nat
    decreases |f|
  {
    if f == map[] then 0 else
      var k :| k in f;
      assert |f - {k}| < |f| by { assert k !in (f - {k}); assert f.Keys == (f - {k}).Keys + {k}; }
      Hits(f[k].hp) + Toll(f - {k})
  }

  lemma {:induction false} TollWithout(f: Arena, k: string)
    requires k in f
    ensures Toll(f) == Hits(f[k].hp) + Toll(f - {k})
    decreases |f|
  {
    hide Hits;
    var z :| z in f && Toll(f) == Hits(f[z].hp) + Toll(f - {z});
    if z == k {
    } else {
      OneFewer(f, z);
      OneFewer(f, k);
      TollWithout(f - {z}, k);
      assert f - {k} - {z} == f - {z} - {k};
      TollWithout(f - {k}, z);
    }
  }

  lemma OneFewer(f: Arena, k: string)
    requires k in f
    ensures |f - {k}| < |f|
  {
    assert f.Keys == (f - {k}).Keys + {k};
  }

  lemma TollFalls(f: Arena, w: string, a: string)
    requires Alive(f) && Weakest(f, w) && StrongestBut(f, w, a) && f[w].owner == w
    ensures Toll(Strike(f, w, a)) < Toll(f)
  {
    var g, d := Strike(f, w, a), UnitDamage(f[a].kind, f[w].kind);
    TollWithout(f, w);
    HitsDrop(f[w].hp, d);
    if w in g {
      TollWithout(g, w);
      assert g - {w} == f - {w};
    } else {
      assert g == f - {w};
    }
  }

  /** The rounds that the losers together can last: all but a strongest champion. */
  ghost function LosersToll(f: Arena, t: string): int
    requires t in f
  {
    Toll(f - {t})
  }

  lemma {:induction false} RunKeeps(fs: seq<Arena>, i: nat)
    requires IsRun(fs) && i < |fs|
    requires fs[0] != map[] && Alive(fs[0]) && Settles(fs[0])
    ensures FightInv(fs[0], fs[i]) && Settles(fs[i]) && Toll(fs[i]) + i <= Toll(fs[0])
  {
    if i == 0 {
      FightStart(fs[0]);
    } else {
      RunKeeps(fs, i - 1);
      assert Step(fs[i - 1], fs[i]);
      var w, a :| Weakest(fs[i - 1], w) && StrongestBut(fs[i - 1], w, a) && fs[i] == Strike(fs[i - 1], w, a);
      WeakestIsFiled(fs[i - 1], w, a);
      StrikeKeepsSettling(fs[i - 1], w, a);
      FightStep(fs[0], fs[i - 1], w, a);
      TollFalls(fs[i - 1], w, a);
    }
  }

  /** However ties fall, a fight that settles is over after at most the losers' toll. */
  lemma SettledFightsEnd(fs: seq<Arena>, t: string)
    requires IsRun(fs) && Alive(fs[0]) && Settles(fs[0]) && UnhurtTop(fs[0], fs[0], t)
    ensures |fs| - 1 <= LosersToll(fs[0], t)
  {
    var n := |fs| - 1;
    RunKeeps(fs, n);
    var s :| UnhurtTop(fs[0], fs[n], s);
    TollWithout(fs[n], s);
    TollWithout(fs[0], t);
    assert fs[0][s].hp == fs[0][t].hp;
  }

  /** And the last one standing is unhurt and was a strongest champion from the start. */
  lemma SettledFightsCrownTheStrongest(fs: seq<Arena>)
    requires IsRun(fs) && fs[0] != map[] && Alive(fs[0]) && Settles(fs[0]) && |fs[|fs| - 1]| == 1
    ensures exists t :: UnhurtTop(fs[0], fs[0], t) && fs[|fs| - 1] == map[t := fs[0][t]]
  {
    var last := fs[|fs| - 1];
    RunKeeps(fs, |fs| - 1);
    var t :| UnhurtTop(fs[0], last, t);
    OnlyKey(last, t);
  }

  lemma OnlyKey(f: Arena, t: string)
    requires |f| == 1 && t in f
    ensures f == map[t := f[t]]
  {
    assert f.Keys == {t} by {
      assert |f.Keys - {t}| == 0;
    }
  }

  /** k is filed under a name that is not its owner's, and j is at least as strong. */
  ghost predicate Doomed(f: Arena, k: string, j: string) {
    k in f && j in f && j != k && f[k].owner != k && f[k].hp <= f[j].hp
  }

  /** From a doomed arena there is always a next round that leaves it doomed. */
  lemma DoomGoesOn(f: Arena, k: string, j: string) returns (g: Arena)
    requires Doomed(f, k, j) && Unambiguous(f)
    ensures Step(f, g) && Doomed(g, k, j) && Unambiguous(g)
  {
    WeakestExists(f);
    var w := k;
    if !Weakest(f, k) {
      w :| Weakest(f, w);
    }
    StrongestExists(f, w, if w == k then j else k);
    var a :| StrongestBut(f, w, a);
    g := Strike(f, w, a);
  }

  lemma {:induction false} WeakestExists(f: Arena)
    requires f != map[]
    ensures exists w :: Weakest(f, w)
    decreases |f|
  {
    var z :| z in f;
    var g := f - {z};
    assert forall k :: k in f <==> k in g || k == z;
    if g == map[] {
      assert Weakest(f, z);
    } else {
      assert |g| < |f|;
      WeakestExists(g);
      var w :| Weakest(g, w);
      if f[z].hp < f[w].hp {
        assert Weakest(f, z);
      } else {
        assert Weakest(f, w);
      }
    }
  }

  lemma StrongestExists(f: Arena, w: string, z: string)
    requires z in f && z != w
    ensures exists a :: StrongestBut(f, w, a)
  {
    var g := f - {w};
    assert z in g && forall k :: k in g <==> k in f && k != w;
    TopExists(g);
    var a :| UnhurtTop(g, g, a);
    assert StrongestBut(f, w, a);
  }

  /** A run of any length from a doomed arena. */
  lemma {:induction false} DoomedFightsDrag(f: Arena, k: string, j: string, n: nat) returns (fs: seq<Arena>)
    requires Doomed(f, k, j) && Unambiguous(f)
    ensures IsRun(fs) && |fs| == n + 1 && fs[0] == f
    ensures Doomed(fs[n], k, j) && Unambiguous(fs[n])
  {
    if n == 0 {
      fs := [f];
    } else {
      fs := DoomedFightsDrag(f, k, j, n - 1);
      var g := DoomGoesOn(fs[n - 1], k, j);
      fs := fs + [g];
    }
  }

  /** Some run of the fight goes on for n rounds and still has more than one champion. */
  ghost predicate CanLast(f: Arena, n: nat) {
    exists fs :: IsRun(fs) && fs[0] == f && |fs| == n + 1 && |fs[n]| > 1
  }

  /** No run of the fight goes on for more than `bound` rounds. */
  ghost predicate OverBy(f: Arena, bound: nat) {
    forall n: nat | bound < n :: !CanLast(f, n)
  }

  lemma CanLastWitness(f: Arena, n: nat, fs: seq<Arena>, k: string, j: string)
    requires IsRun(fs) && fs[0] == f && |fs| == n + 1 && Doomed(fs[n], k, j)
    ensures CanLast(f, n)
  {
    assert {k, j} <= fs[n].Keys;
    assert fs[n].Keys == {k, j} + (fs[n].Keys - {k, j});
    assert |{k, j}| == 2;
  }

  /** The fight can go on for ever exactly when some champion that is not filed under its
      owner's name is not stronger than all the others. */
  lemma FightEndsIffSettles(f: Arena)
    requires f != map[] && Alive(f) && Unambiguous(f)
    ensures Settles(f) <==> exists bound :: OverBy(f, bound)
  {
    if Settles(f) {
      forall n: nat | Toll(f) < n
        ensures !CanLast(f, n)
      {
        forall fs | IsRun(fs) && fs[0] == f && |fs| == n + 1
          ensures false
        {
          RunKeeps(fs, n);
        }
      }
      assert OverBy(f, Toll(f));
    } else {
      var k :| k in f && f[k].owner != k && !forall j | j in f && j != k :: f[j].hp < f[k].hp;
      var j :| j in f && j != k && f[k].hp <= f[j].hp;
      forall bound: nat | OverBy(f, bound)
        ensures false
      {
        var fs := DoomedFightsDrag(f, k, j, bound + 1);
        CanLastWitness(f, bound + 1, fs, k, j);
      }
    }
  }

  /** Once a champion that is not filed under its owner's name is struck as the weakest, the
      loop is stuck: whatever it picks, no champion is ever removed again. */
  ghost predicate Stuck(f: Arena, k: string) {
    k in f && f[k].owner !in f && |f| > 1 && forall j | j in f && j != k :: f[k].hp < f[j].hp
  }

  lemma StuckForever(f: Arena, k: string, g: Arena)
    requires Stuck(f, k) && Step(f, g)
    ensures Stuck(g, k) && g.Keys == f.Keys
  {
    var w, a :| Weakest(f, w) && StrongestBut(f, w, a) && g == Strike(f, w, a);
    assert w == k;
    assert g.Keys == f.Keys;
  }

  lemma StrikingTheMisfiledSticks(f: Arena, w: string, a: string)
    requires Unambiguous(f) && Weakest(f, w) && StrongestBut(f, w, a) && f[w].owner != w
    ensures Stuck(Strike(f, w, a), w)
  {
    var g := Strike(f, w, a);
    assert g.Keys == f.Keys;
    assert {w, a} <= f.Keys;
    assert f.Keys == {w, a} + (f.Keys - {w, a});
    assert |{w, a}| == 2;
  }

  /** What n rounds against champions filed under their own owners keep. */
  ghost predicate Underway(f0: Arena, f: Arena, n: nat) {
    FightInv(f0, f) && Unambiguous(f) && (Settles(f0) ==> Settles(f)) && n + Toll(f) <= Toll(f0)
  }

  lemma StrikeKeepsNames(f: Arena, w: string, a: string)
    requires Unambiguous(f) && w in f && a in f && f[w].owner == w
    ensures Unambiguous(Strike(f, w, a))
  {
  }

  lemma FightGoesOn(f0: Arena, f: Arena, n: nat, w: string, a: string, g: Arena)
    requires Underway(f0, f, n) && Weakest(f, w) && StrongestBut(f, w, a) && f[w].owner == w && g == Strike(f, w, a)
    ensures Underway(f0, g, n + 1) && Toll(g) < Toll(f)
  {
    hide Toll, Settles, Strike, UnhurtTop;
    FightStep(f0, f, w, a);
    StrikeKeepsNames(f, w, a);
    TollFalls(f, w, a);
    if Settles(f) {
      StrikeKeepsSettling(f, w, a);
    }
  }

  lemma FightSticks(f0: Arena, f: Arena, n: nat, w: string, a: string)
    requires Underway(f0, f, n) && Weakest(f, w) && StrongestBut(f, w, a) && f[w].owner != w
    ensures !Settles(f0) && Stuck(Strike(f, w, a), w)
  {
    if Settles(f) {
      WeakestIsFiled(f, w, a);
    }
    StrikingTheMisfiledSticks(f, w, a);
  }

  lemma FightIsOver(f0: Arena, f: Arena, n: nat) returns (t: string)
    requires Underway(f0, f, n)
    ensures UnhurtTop(f0, f0, t) && UnhurtTop(f0, f, t) && n <= LosersToll(f0, t)
  {
    t :| UnhurtTop(f0, f, t);
    TollWithout(f0, t);
    TollWithout(f, t);
  }
}
