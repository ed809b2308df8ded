/** The initial commitment guess of unit commitment
    (`UCModel._initial_guess`). When every PV generator is online, the
    generators are ranked by a weighted cost score, and the cheapest 30% are
    switched off in the `u` store. Generators are represented by their PV
    positions, which `uid` puts in one-to-one correspondence with their ids. */
module UnitCommitment {

  /** The quadratic cost coefficients of a generator's `GCost` entry. */
  datatype Cost = Cost(c2: real, c1: real, c0: real)

  /** `wsum = 0.4*c2 + 0.3*c1 + 0.2*c0 + 0.1*Sn` */
  function Score(c: Cost, sn: real): real {
    0.4 * c.c2 + 0.3 * c.c1 + 0.2 * c.c0 + 0.1 * sn
  }

  /** The scores of the generators, in PV order. */
  function Scores(costOf: nat -> Cost, sn: seq<real>): (w: seq<real>)
    ensures |w| == |sn| && forall i | 0 <= i < |sn| :: w[i] == Score(costOf(i), sn[i])
  {
    seq(|sn|, i requires 0 <= i < |sn| => Score(costOf(i), sn[i]))
  }

  /** `int(0.3 * n)`: the number of generators switched off. */
  function OffCount(n: nat): (k: nat)
    ensures k <= n
    ensures k as real <= 0.3 * n as real < k as real + 1.0
  {
    (3 * n) / 10
  }

  // --------------------------------------------------------------- ranking

  /** Positions `0 .. n-1` in order. */
  function Range(n: nat): (r: seq<nat>)
    ensures |r| == n && forall i | 0 <= i < n :: r[i] == i
  {
    seq(n, i requires 0 <= i < n => i)
  }

  predicate InRange(order: seq<nat>, n: nat) {
    forall i | 0 <= i < |order| :: order[i] < n
  }

  predicate Distinct(order: seq<nat>) {
    forall i, j | 0 <= i < j < |order| :: order[i] != order[j]
  }

  /** The positions of `order` come in ascending score. */
  predicate SortedBy(w: seq<real>, order: seq<nat>)
    requires InRange(order, |w|)
  {
    forall i, j | 0 <= i < j < |order| :: w[order[i]] <= w[order[j]]
  }

  /** `order` lists every generator once, in ascending score: what sorting
      the generator table by `wsum` yields, whatever the sort does with
      ties. */
  predicate IsRanking(w: seq<real>, order: seq<nat>) {
    && |order| == |w| && InRange(order, |w|) && Distinct(order)
    && (forall i: nat | i < |w| :: i in order)
    && SortedBy(w, order)
  }

  /** Insertion of position `x` after every position of no greater score. */
  function Insert(w: seq<real>, x: nat, order: seq<nat>): (r: seq<nat>)
    requires x < |w| && InRange(order, |w|)
    ensures |r| == |order| + 1 && InRange(r, |w|)
  {
    if order == [] then [x]
    else if w[x] < w[order[0]] then [x] + order
    else [order[0]] + Insert(w, x, order[1..])
  }

  /** Insertion adds exactly position `x`. */
  lemma {:induction false} InsertElems(w: seq<real>, x: nat, order: seq<nat>)
    requires x < |w| && InRange(order, |w|)
    ensures var r := Insert(w, x, order);
      && |r| == |order| + 1 && InRange(r, |w|)
      && (forall e :: e in r <==> e == x || e in order)
  {
    if order != [] && w[x] >= w[order[0]] {
      InsertElems(w, x, order[1..]);
      assert order == [order[0]] + order[1..];
    }
  }

  /** Insertion into a sorted order keeps it sorted. */
  lemma {:induction false} InsertSorted(w: seq<real>, x: nat, order: seq<nat>)
    requires x < |w| && InRange(order, |w|) && SortedBy(w, order)
    ensures SortedBy(w, Insert(w, x, order))
  {
    InsertElems(w, x, order);
    if order != [] && w[x] >= w[order[0]] {
      var rest := order[1..];
      InsertElems(w, x, rest);
      InsertSorted(w, x, rest);
      var ir := Insert(w, x, rest);
      assert Insert(w, x, order) == [order[0]] + ir;
      forall j | 0 <= j < |ir| ensures w[order[0]] <= w[ir[j]] {
        assert ir[j] in ir;
        if ir[j] != x {
          var k :| 0 <= k < |rest| && rest[k] == ir[j];
          assert rest[k] == order[k + 1];
        }
      }
    }
  }

  /** Insertion of a new position keeps positions distinct. */
  lemma {:induction false} InsertDistinct(w: seq<real>, x: nat, order: seq<nat>)
    requires x < |w| && InRange(order, |w|) && Distinct(order) && x !in order
    ensures Distinct(Insert(w, x, order))
  {
    InsertElems(w, x, order);
    if order != [] && w[x] >= w[order[0]] {
      var rest := order[1..];
      assert order == [order[0]] + rest;
      InsertElems(w, x, rest);
      InsertDistinct(w, x, rest);
      var ir := Insert(w, x, rest);
      assert Insert(w, x, order) == [order[0]] + ir;
      assert order[0] !in rest;
      forall j | 0 <= j < |ir| ensures ir[j] != order[0] {
        assert ir[j] in ir;
      }
    }
  }

  lemma InsertFacts(w: seq<real>, x: nat, order: seq<nat>)
    requires x < |w| && InRange(order, |w|)
    ensures var r := Insert(w, x, order);
      && |r| == |order| + 1 && InRange(r, |w|)
      && (forall e :: e in r <==> e == x || e in order)
      && (SortedBy(w, order) ==> SortedBy(w, r))
      && (Distinct(order) && x !in order ==> Distinct(r))
  {
    InsertElems(w, x, order);
    if SortedBy(w, order) {
      InsertSorted(w, x, order);
    }
    if Distinct(order) && x !in order {
      InsertDistinct(w, x, order);
    }
  }

  /** Insertion sort of positions by score. */
  function SortPositions(w: seq<real>, xs: seq<nat>): (r: seq<nat>)
    requires InRange(xs, |w|)
    ensures |r| == |xs| && InRange(r, |w|)
  {
    if xs == [] then []
    else
      InsertFacts(w, xs[|xs| - 1], SortPositions(w, xs[..|xs| - 1]));
      Insert(w, xs[|xs| - 1], SortPositions(w, xs[..|xs| - 1]))
  }

  lemma {:induction false} SortFacts(w: seq<real>, xs: seq<nat>)
    requires InRange(xs, |w|)
    ensures var r := SortPositions(w, xs);
      && |r| == |xs| && InRange(r, |w|) && SortedBy(w, r)
      && (forall e :: e in r <==> e in xs)
      && (Distinct(xs) ==> Distinct(r))
  {
    if xs != [] {
      var pre, x := xs[..|xs| - 1], xs[|xs| - 1];
      var pr := SortPositions(w, pre);
      assert SortPositions(w, xs) == Insert(w, x, pr);
      SortFacts(w, pre);
      InsertFacts(w, x, pr);
      assert xs == pre + [x];
      if Distinct(xs) {
        forall k | 0 <= k < |pre| ensures pre[k] != x {
          assert pre[k] == xs[k];
        }
        assert Distinct(pre);
      }
    }
  }

  /** The generators in ascending score. */
  function Ranking(w: seq<real>): (r: seq<nat>)
    ensures |r| == |w|
  {
    SortPositions(w, Range(|w|))
  }

  /** `sort_values(by='wsum')` lists every generator exactly once, in
      ascending score. */
  lemma RankingIsRanking(w: seq<real>)
    ensures IsRanking(w, Ranking(w))
  {
    var all := Range(|w|);
    SortFacts(w, all);
    forall i: nat | i < |w| ensures i in Ranking(w) {
      assert all[i] == i;
    }
  }

  lemma {:induction false} DistinctCard(s: seq<nat>)
    requires Distinct(s)
    ensures |set k | 0 <= k < |s| :: s[k]| == |s|
  {
    if s != [] {
      var pre := s[..|s| - 1];
      DistinctCard(pre);
      var a, b := set k | 0 <= k < |pre| :: pre[k], set k | 0 <= k < |s| :: s[k];
      assert b == a + {s[|s| - 1]};
      assert s[|s| - 1] !in a;
    }
  }

  // ----------------------------------------------------------------- guess

  /** `u` after the guess: nothing changes if a generator is already off;
      otherwise the first `int(0.3*n)` generators of `order` are off. */
  function Guess(u: seq<real>, order: seq<nat>): (g: seq<real>)
    requires |order| == |u|
    ensures |g| == |u|
  {
    if exists i | 0 <= i < |u| :: u[i] == 0.0 then u
    else
      var off := order[..OffCount(|u|)];
      seq(|u|, i requires 0 <= i < |u| => if i in off then 0.0 else u[i])
  }

  /** The generators that are off. */
  function Off(u: seq<real>): set<nat> {
    set i | 0 <= i < |u| && u[i] == 0.0
  }

  /** With a generator already off the commitment is left as it was. */
  lemma KeptWhenOneIsOff(u: seq<real>, order: seq<nat>, i: nat)
    requires |order| == |u| && i < |u| && u[i] == 0.0
    ensures Guess(u, order) == u
  {
  }

  /** With every generator on, exactly `int(0.3*n)` are switched off: the
      first ones of the ranking. */
  lemma ExactlyTheCheapestOff(w: seq<real>, u: seq<real>, order: seq<nat>)
    requires IsRanking(w, order) && |u| == |w|
    requires forall i | 0 <= i < |u| :: u[i] != 0.0
    ensures var k := OffCount(|u|);
      && Off(Guess(u, order)) == (set j | 0 <= j < k :: order[j])
      && |Off(Guess(u, order))| == k
  {
    var k := OffCount(|u|);
    var g := Guess(u, order);
    var off := order[..k];
    assert forall i | 0 <= i < |u| :: g[i] == 0.0 <==> i in off;
    assert Off(g) == (set j | 0 <= j < k :: order[j]) by {
      forall e | e in Off(g) ensures e in (set j | 0 <= j < k :: order[j]) {
        var j :| 0 <= j < k && off[j] == e;
      }
    }
    assert Distinct(off);
    DistinctCard(off);
    assert (set j | 0 <= j < |off| :: off[j]) == (set j | 0 <= j < k :: order[j]);
  }

  /** Every generator switched off scores no more than every generator left
      on, and those left on keep their status. */
  lemma OffScoresBelowOn(w: seq<real>, u: seq<real>, order: seq<nat>)
    requires IsRanking(w, order) && |u| == |w|
    requires forall i | 0 <= i < |u| :: u[i] != 0.0
    ensures var g := Guess(u, order);
      && (forall i, j | 0 <= i < |u| && 0 <= j < |u| && g[i] == 0.0 && g[j] != 0.0 :: w[i] <= w[j])
      && (forall j | 0 <= j < |u| && g[j] != 0.0 :: g[j] == u[j])
  {
    var k := OffCount(|u|);
    var g := Guess(u, order);
    var off := order[..k];
    forall i, j | 0 <= i < |u| && 0 <= j < |u| && g[i] == 0.0 && g[j] != 0.0 ensures w[i] <= w[j] {
      assert i in off && j !in off;
      var a :| 0 <= a < k && off[a] == i;
      assert j in order;
      var b :| 0 <= b < |order| && order[b] == j;
      assert order[a] == i;
    }
  }

  // ----------------------------------------------------------------- state

  /** The two phases of `init`. */
  datatype Phase = GuessPhase | ParentInit

  /** The PV generators' commitment store `u`, their capacities `Sn`, and
      each generator's cost coefficients. */
  class UCModel {
    const u: array<real>
    const sn: seq<real>
    const costOf: nat -> Cost
    /** The phases `init` has gone through. */
    ghost var trace: seq<Phase>

    ghost predicate Valid()
      reads this
    {
      u.Length == |sn|
    }

    constructor (u: array<real>, sn: seq<real>, costOf: nat -> Cost)
      requires u.Length == |sn|
      ensures Valid() && this.u == u && this.sn == sn && this.costOf == costOf && trace == []
    {
      this.u := u;
      this.sn := sn;
      this.costOf := costOf;
      trace := [];
    }

    /** `StaticGen.set(src='u', idx=g_idx, value=0)`: each listed generator
        is switched off, the others keep their status. */
    method SwitchOff(gIdx: seq<nat>)
      requires forall j | 0 <= j < |gIdx| :: gIdx[j] < u.Length
      modifies u
      ensures forall i | 0 <= i < u.Length :: u[i] == if i in gIdx then 0.0 else old(u[i])
    {
      for j := 0 to |gIdx|
        invariant forall i | 0 <= i < u.Length :: u[i] == if i in gIdx[..j] then 0.0 else old(u[i])
      {
        assert gIdx[..j + 1] == gIdx[..j] + [gIdx[j]];
        u[gIdx[j]] := 0.0;
      }
      assert gIdx[..|gIdx|] == gIdx;
    }

    /** `_initial_guess`: leaves `u` alone when a generator is off; otherwise
        ranks the generators by score and switches off the first
        `int(0.3*n)`. Always returns true. */
    method InitialGuess() returns (done: bool)
      requires Valid()
      modifies u, this`trace
      ensures done
      ensures u[..] == Guess(old(u[..]), Ranking(Scores(costOf, sn)))
      ensures trace == old(trace) + [GuessPhase]
    {
      trace := trace + [GuessPhase];
      if exists i | 0 <= i < u.Length :: u[i] == 0.0 {
        return true;
      }
      ghost var u0 := u[..];
      var w := Scores(costOf, sn);
      var priority := Ranking(w);
      RankingIsRanking(w);
      var gIdx := priority[..OffCount(|priority|)];
      SwitchOff(gIdx);
      assert u[..] == Guess(u0, priority);
      return true;
    }

    /** The routine's own `init` (building the optimization model), which
        this model does not cover. */
    method ParentInitialize()
      modifies this`trace
      ensures trace == old(trace) + [ParentInit]
    {
      trace := trace + [ParentInit];
    }

    /** `init`: the commitment guess, then the parent's `init`. */
    method Init()
      requires Valid()
      modifies u, this`trace
      ensures u[..] == Guess(old(u[..]), Ranking(Scores(costOf, sn)))
      ensures trace == old(trace) + [GuessPhase, ParentInit]
    {
      var _ := InitialGuess();
      ParentInitialize();
    }
  }
}
