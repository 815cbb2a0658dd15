/** Surrogate pre-selection: from a large pool ranked by a surrogate, a population is drawn, a few of its
    members are truly evaluated, and the population is ordered for the update. */
module Surrogate {
  import opened LinearAlgebra
  import opened RealFunctions
  import opened Solutions
  import opened Sorting
  import opened Wrappers

  // ----- sorting with an unspecified order among equals

  type Order = (Candidate, Candidate) -> bool

  ghost predicate TotalPreorder(leq: Order) {
    && (forall a, b :: leq(a, b) || leq(b, a))
    && forall a, b, c :: leq(a, b) && leq(b, c) ==> leq(a, c)
  }

  ghost predicate SortedBy(leq: Order, cs: seq<Candidate>) {
    forall i, j :: 0 <= i < j < |cs| ==> leq(cs[i], cs[j])
  }

  /** perm lists every index below n exactly once. */
  ghost predicate IsPermutation(perm: seq<nat>, n: nat) {
    && |perm| == n && (forall i :: 0 <= i < n ==> perm[i] < n) && Covers(perm, n)
    && forall i, j :: 0 <= i < j < n ==> perm[i] != perm[j]
  }

  ghost predicate Covers(perm: seq<nat>, n: nat) {
    forall i: nat :: i < n ==> i in perm
  }

  ghost predicate Permuted(r: seq<Candidate>, cs: seq<Candidate>, perm: seq<nat>) {
    IsPermutation(perm, |cs|) && |r| == |cs| && forall i :: 0 <= i < |r| ==> r[i] == cs[perm[i]]
  }

  function InsertAt<T>(s: seq<T>, k: nat, x: T): (r: seq<T>)
    requires k <= |s|
    ensures |r| == |s| + 1
  {
    s[..k] + [x] + s[k..]
  }

  lemma InsertedAt<T>(s: seq<T>, k: nat, x: T, i: nat)
    requires k <= |s| && i <= |s|
    ensures InsertAt(s, k, x)[i] == if i < k then s[i] else if i == k then x else s[i - 1]
  {
  }

  /** Sorts by a preorder. Callers know only that the result is sorted and a permutation. */
  method Sort(leq: Order, cs: seq<Candidate>) returns (r: seq<Candidate>, ghost perm: seq<nat>)
    requires TotalPreorder(leq)
    ensures SortedBy(leq, r) && Permuted(r, cs, perm)
  {
    hide TotalPreorder, SortedBy, Permuted;
    r, perm := [], [];
    var i := 0;
    EmptySorted(leq, cs);
    while i < |cs|
      invariant 0 <= i <= |cs| && |r| == i
      invariant SortedBy(leq, r) && Permuted(r, cs[..i], perm)
    {
      var k := 0;
      while k < |r| && leq(r[k], cs[i])
        invariant 0 <= k <= |r| && forall j :: 0 <= j < k ==> leq(r[j], cs[i])
      {
        k := k + 1;
      }
      InsertSortedBy(leq, r, cs[i], k);
      InsertPermuted(r, perm, cs, i, k);
      r, perm := InsertAt(r, k, cs[i]), InsertAt(perm, k, i);
      i := i + 1;
    }
    assert cs[..i] == cs;
  }

  lemma EmptySorted(leq: Order, cs: seq<Candidate>)
    ensures SortedBy(leq, []) && Permuted([], cs[..0], [])
  {
  }

  lemma InsertSortedBy(leq: Order, r: seq<Candidate>, c: Candidate, k: nat)
    requires TotalPreorder(leq) && SortedBy(leq, r) && k <= |r|
    requires (forall j :: 0 <= j < k ==> leq(r[j], c)) && (k < |r| ==> !leq(r[k], c))
    ensures SortedBy(leq, InsertAt(r, k, c))
  {
    hide InsertAt;
    var q := InsertAt(r, k, c);
    forall i, j | 0 <= i < j < |q| ensures leq(q[i], q[j]) {
      InsertedAt(r, k, c, i);
      InsertedAt(r, k, c, j);
      if i == k && k + 1 < j { assert leq(r[k], r[j - 1]); }
    }
  }

  lemma InsertPermuted(r: seq<Candidate>, perm: seq<nat>, cs: seq<Candidate>, i: nat, k: nat)
    requires i < |cs| && Permuted(r, cs[..i], perm) && k <= |r|
    ensures |perm| == |r| == i
    ensures Permuted(InsertAt(r, k, cs[i]), cs[..i + 1], InsertAt(perm, k, i))
  {
    hide InsertAt, Covers;
    var p, q := InsertAt(perm, k, i), InsertAt(r, k, cs[i]);
    InsertCovers(perm, i, k);
    forall m | 0 <= m < i + 1 ensures p[m] < i + 1 && q[m] == cs[..i + 1][p[m]] {
      InsertedAt(perm, k, i, m);
      InsertedAt(r, k, cs[i], m);
    }
    InsertDistinct(perm, i, k);
  }

  lemma InsertCovers(perm: seq<nat>, i: nat, k: nat)
    requires k <= |perm| && Covers(perm, i)
    ensures Covers(InsertAt(perm, k, i), i + 1)
  {
    hide InsertAt;
    var p := InsertAt(perm, k, i);
    forall j: nat | j < i + 1 ensures j in p {
      InsertedAt(perm, k, i, k);
      if j < i {
        assert j in perm;
        var m :| 0 <= m < |perm| && perm[m] == j;
        InsertedAt(perm, k, i, if m < k then m else m + 1);
      }
    }
  }

  lemma InsertDistinct(perm: seq<nat>, i: nat, k: nat)
    requires k <= |perm| && forall a :: 0 <= a < |perm| ==> perm[a] < i
    requires forall a, b :: 0 <= a < b < |perm| ==> perm[a] != perm[b]
    ensures forall a, b :: 0 <= a < b < |perm| + 1 ==> InsertAt(perm, k, i)[a] != InsertAt(perm, k, i)[b]
  {
    hide InsertAt;
    var p := InsertAt(perm, k, i);
    forall a, b | 0 <= a < b < |p| ensures p[a] != p[b] {
      InsertedAt(perm, k, i, a);
      InsertedAt(perm, k, i, b);
    }
  }

  predicate ByValue(a: Candidate, b: Candidate) {
    a.fvalue <= b.fvalue
  }

  /** By value, equal values by rank. */
  predicate ByValueThenRank(a: Candidate, b: Candidate) {
    a.fvalue < b.fvalue || (a.fvalue == b.fvalue && a.rank <= b.rank)
  }

  // ----- the selection

  /** The candidates carry distinct ranks into the pool, and each is the pool's member of its rank. */
  ghost predicate Members(cs: seq<Candidate>, pool: seq<Candidate>) {
    && (forall i :: 0 <= i < |cs| ==> 0 <= cs[i].rank < |pool| && cs[i].x == pool[cs[i].rank].x)
    && forall i, j :: 0 <= i < j < |cs| ==> cs[i].rank != cs[j].rank
  }

  ghost predicate HasRank(cs: seq<Candidate>, rank: int) {
    exists i :: 0 <= i < |cs| && cs[i].rank == rank
  }

  lemma PermutedMembers(r: seq<Candidate>, cs: seq<Candidate>, perm: seq<nat>, pool: seq<Candidate>)
    requires Permuted(r, cs, perm) && Members(cs, pool)
    ensures Members(r, pool)
  {
    forall i, j | 0 <= i < j < |r| ensures r[i].rank != r[j].rank {
      var p, q := perm[i], perm[j];
      assert p != q;
      assert p < q || q < p;
    }
  }

  /** No rank is lost. */
  lemma PermutedRank(r: seq<Candidate>, cs: seq<Candidate>, perm: seq<nat>, j: nat) returns (i: nat)
    requires Permuted(r, cs, perm) && j < |cs|
    ensures i < |r| && r[i] == cs[j]
  {
    assert j in perm;
    i :| 0 <= i < |perm| && perm[i] == j;
  }

  /** The members whose rank is in u carry their true value, the others the largest double. */
  ghost predicate ValuesSplit(cs: seq<Candidate>, u: set<int>, func: Vec -> real, dblMax: real) {
    forall i :: 0 <= i < |cs| ==> cs[i].fvalue == if cs[i].rank in u then func(cs[i].x) else dblMax
  }

  /** The true values are below the largest double. */
  ghost predicate ValuesBelow(cs: seq<Candidate>, u: set<int>, dblMax: real) {
    forall i :: 0 <= i < |cs| && cs[i].rank in u ==> cs[i].fvalue < dblMax
  }

  /** In the final order every evaluated member precedes every other, and the others are in rank order. */
  ghost predicate EvaluatedFirst(cs: seq<Candidate>, u: set<int>) {
    forall i, j :: 0 <= i < j < |cs| ==>
      && (cs[j].rank in u ==> cs[i].rank in u && cs[i].fvalue <= cs[j].fvalue)
      && (cs[i].rank !in u ==> cs[i].rank < cs[j].rank)
  }

  /** Every evaluated member has a value below the largest double, or has it and ranks above every member
      that was not evaluated. */
  ghost predicate Separated(cs: seq<Candidate>, u: set<int>, dblMax: real) {
    forall i, j :: 0 <= i < |cs| && 0 <= j < |cs| && cs[i].rank in u && cs[j].rank !in u ==>
      cs[i].fvalue < dblMax || (cs[i].fvalue == dblMax && cs[i].rank < cs[j].rank)
  }

  /** The final sort puts the evaluated members first exactly when they are separated from the others. */
  lemma FinalOrder(cs: seq<Candidate>, pool: seq<Candidate>, u: set<int>, func: Vec -> real, dblMax: real)
    requires SortedBy(ByValueThenRank, cs) && Members(cs, pool) && ValuesSplit(cs, u, func, dblMax)
    ensures EvaluatedFirst(cs, u) <==> Separated(cs, u, dblMax)
    ensures ValuesBelow(cs, u, dblMax) ==> EvaluatedFirst(cs, u)
  {
    assert forall i, j :: 0 <= i < j < |cs| ==> ByValueThenRank(cs[i], cs[j]);
    if Separated(cs, u, dblMax) {
      forall i, j | 0 <= i < j < |cs|
        ensures cs[j].rank in u ==> cs[i].rank in u && cs[i].fvalue <= cs[j].fvalue
        ensures cs[i].rank !in u ==> cs[i].rank < cs[j].rank
      {
        OrderedPair(cs, pool, u, func, dblMax, i, j);
      }
    }
    if EvaluatedFirst(cs, u) {
      forall i, j | 0 <= i < |cs| && 0 <= j < |cs| && cs[i].rank in u && cs[j].rank !in u
        ensures cs[i].fvalue < dblMax || (cs[i].fvalue == dblMax && cs[i].rank < cs[j].rank)
      {
        assert i < j || j < i;
      }
    }
    if ValuesBelow(cs, u, dblMax) { assert Separated(cs, u, dblMax); }
  }

  lemma OrderedPair(cs: seq<Candidate>, pool: seq<Candidate>, u: set<int>, func: Vec -> real, dblMax: real,
                    i: nat, j: nat)
    requires SortedBy(ByValueThenRank, cs) && Members(cs, pool) && ValuesSplit(cs, u, func, dblMax)
    requires Separated(cs, u, dblMax) && i < j < |cs|
    ensures cs[j].rank in u ==> cs[i].rank in u && cs[i].fvalue <= cs[j].fvalue
    ensures cs[i].rank !in u ==> cs[i].rank < cs[j].rank
  {
    assert ByValueThenRank(cs[i], cs[j]);
  }

  lemma OrdersAreTotal()
    ensures TotalPreorder(ByValue) && TotalPreorder(ByValueThenRank)
  {
  }

  /** The ranks of the positions in u, among the first n. */
  function RanksOf(cs: seq<Candidate>, u: set<int>, n: nat): set<int>
    requires n <= |cs|
  {
    if n == 0 then {}
    else RanksOf(cs, u, n - 1) + if n - 1 in u then {cs[n - 1].rank} else {}
  }

  lemma {:induction false} RankMembership(cs: seq<Candidate>, u: set<int>, n: nat, rank: int)
    requires n <= |cs|
    ensures rank in RanksOf(cs, u, n) <==> exists i :: 0 <= i < n && i in u && cs[i].rank == rank
  {
    if n > 0 {
      RankMembership(cs, u, n - 1, rank);
    }
  }

  /** The positions of u among the first n. */
  function Below(u: set<int>, n: nat): set<int> {
    set i | i in u && 0 <= i < n
  }

  lemma BelowStep(u: set<int>, n: nat)
    requires n > 0
    ensures Below(u, n) == if n - 1 in u then Below(u, n - 1) + {n - 1} else Below(u, n - 1)
    ensures n - 1 !in Below(u, n - 1) && Below(u, 0) == {}
  {
  }

  lemma NoRanks(cs: seq<Candidate>, u: set<int>)
    ensures RanksOf(cs, u, 0) == {}
  {
  }

  lemma RanksStep(cs: seq<Candidate>, u: set<int>, n: nat)
    requires 0 < n <= |cs|
    ensures RanksOf(cs, u, n) == if n - 1 in u then RanksOf(cs, u, n - 1) + {cs[n - 1].rank} else RanksOf(cs, u, n - 1)
  {
  }

  /** Distinct members have as many ranks as positions. */
  lemma {:induction false} RanksOfSize(cs: seq<Candidate>, u: set<int>, n: nat, pool: seq<Candidate>)
    requires n <= |cs| && Members(cs, pool)
    ensures |RanksOf(cs, u, n)| == |Below(u, n)|
  {
    hide Members, Below, RanksOf;
    if n == 0 {
      BelowStep(u, 1);
      NoRanks(cs, u);
    } else {
      RanksOfSize(cs, u, n - 1, pool);
      RanksStep(cs, u, n);
      BelowStep(u, n);
      if n - 1 in u {
        NewRank(cs, u, n - 1, pool);
        GrowingSets(RanksOf(cs, u, n - 1), cs[n - 1].rank, Below(u, n - 1), n - 1);
      }
    }
  }

  lemma GrowingSets(s: set<int>, a: int, t: set<int>, b: int)
    requires a !in s && b !in t && |s| == |t|
    ensures |s + {a}| == |t + {b}|
  {
  }

  lemma NewRank(cs: seq<Candidate>, v: set<int>, n: nat, pool: seq<Candidate>)
    requires n < |cs| && Members(cs, pool)
    ensures cs[n].rank !in RanksOf(cs, v, n)
  {
    RankMembership(cs, v, n, cs[n].rank);
    hide RanksOf;
  }

  /** Evaluating some members and marking the rest splits the values by rank. */
  lemma MarkedPopulation(order: seq<Candidate>, cs: seq<Candidate>, u: set<int>, pool: seq<Candidate>,
                         func: Vec -> real, dblMax: real)
    requires Members(order, pool) && |cs| == |order|
    requires forall i :: 0 <= i < |cs| ==>
               cs[i] == if i in u then order[i].(fvalue := func(order[i].x)) else order[i].(fvalue := dblMax)
    ensures Members(cs, pool) && ValuesSplit(cs, RanksOf(order, u, |order|), func, dblMax)
    ensures forall rank :: rank in RanksOf(order, u, |order|) ==> HasRank(cs, rank)
  {
    var ranks := RanksOf(order, u, |order|);
    hide RanksOf;
    forall rank | rank in ranks ensures HasRank(cs, rank) {
      RankMembership(order, u, |order|, rank);
      var i :| 0 <= i < |order| && i in u && order[i].rank == rank;
      assert cs[i].rank == rank;
    }
    forall i | 0 <= i < |cs| ensures cs[i].rank in ranks <==> i in u {
      RankOfPosition(order, u, pool, i);
    }
  }

  /** A member's rank is among those of u exactly when its position is in u. */
  lemma RankOfPosition(cs: seq<Candidate>, u: set<int>, pool: seq<Candidate>, i: nat)
    requires Members(cs, pool) && i < |cs|
    ensures cs[i].rank in RanksOf(cs, u, |cs|) <==> i in u
  {
    RankMembership(cs, u, |cs|, cs[i].rank);
    hide RanksOf;
    forall j | 0 <= j < |cs| && j != i ensures cs[j].rank != cs[i].rank {
      assert i < j || j < i;
    }
  }

  lemma MarkedBelow(order: seq<Candidate>, cs: seq<Candidate>, u: set<int>, pool: seq<Candidate>,
                    test: seq<Candidate>, dblMax: real)
    requires Members(order, pool) && |cs| == |order|
    requires forall i :: 0 <= i < |cs| ==> cs[i].rank == order[i].rank && (i in u ==> cs[i] in test)
    ensures (forall t :: t in test ==> t.fvalue < dblMax) ==> ValuesBelow(cs, RanksOf(order, u, |order|), dblMax)
  {
    hide RanksOf;
    forall i | 0 <= i < |cs| && cs[i].rank in RanksOf(order, u, |order|) ensures i in u {
      RankOfPosition(order, u, pool, i);
    }
  }

  lemma PermutedSplit(r: seq<Candidate>, cs: seq<Candidate>, perm: seq<nat>, u: set<int>, func: Vec -> real,
                      dblMax: real)
    requires Permuted(r, cs, perm) && ValuesSplit(cs, u, func, dblMax)
    ensures ValuesSplit(r, u, func, dblMax)
  {
  }

  // ----- the draws

  /** The draw for a scale s: the floor of s times the absolute value of the noise. */
  function Draw(s: real, z: real): (a: int)
    ensures a as real <= s * Abs(z) < (a + 1) as real && (s >= 0.0 ==> a >= 0)
  {
    ProductSign(s, Abs(z), s * Abs(z));
    (s * Abs(z)).Floor
  }

  /** The places that the first d draws take, in order: 0 before any draw, then every draw below the bound
      that is new, until there are as many as needed. */
  function Taken(draws: seq<real>, s: real, bound: int, need: int, d: nat): (r: seq<int>)
    requires d <= |draws| && s >= 0.0
    ensures |r| >= 1 && r[0] == 0 && (|r| <= need || |r| == 1)
    ensures forall i :: 0 < i < |r| ==> 0 <= r[i] < bound
    ensures forall i, j :: 0 <= i < j < |r| ==> r[i] != r[j]
    decreases d
  {
    if d == 0 then [0]
    else
      var prev, a := Taken(draws, s, bound, need, d - 1), Draw(s, draws[d - 1]);
      if |prev| < need && a < bound && a !in prev then prev + [a] else prev
  }

  /** Once there are enough, later draws take nothing. */
  lemma {:induction false} TakenEnough(draws: seq<real>, s: real, bound: int, need: int, d: nat, n: nat)
    requires d <= n <= |draws| && s >= 0.0 && |Taken(draws, s, bound, need, d)| >= need
    ensures Taken(draws, s, bound, need, n) == Taken(draws, s, bound, need, d)
    decreases n
  {
    if d < n { TakenEnough(draws, s, bound, need, d, n - 1); }
  }

  /** Fewer places than needed are taken only when every draw below the bound is among them. */
  lemma {:induction false} TakenShort(draws: seq<real>, s: real, bound: int, need: int, d: nat, i: nat)
    requires i < d <= |draws| && s >= 0.0 && |Taken(draws, s, bound, need, d)| < need
    ensures Draw(s, draws[i]) < bound ==> Draw(s, draws[i]) in Taken(draws, s, bound, need, d)
    decreases d
  {
    hide Draw;
    if i < d - 1 { TakenShort(draws, s, bound, need, d - 1, i); }
  }

  /** The ranks of a population, in order. */
  function RankList(cs: seq<Candidate>): (r: seq<int>)
    ensures |r| == |cs|
  {
    seq(|cs|, i requires 0 <= i < |cs| => cs[i].rank)
  }

  lemma FirstMember(pool: seq<Candidate>)
    requires pool != []
    ensures var cs := [pool[0].(rank := 0)];
            RankList(cs) == [0] && AsSet(RankList(cs)) == {0} && Members(cs, pool) && Predicted(cs, pool)
  {
    assert RankList([pool[0].(rank := 0)])[0] == 0;
  }

  /** One more member of the pool, under a new rank. */
  lemma OneMoreMember(cs: seq<Candidate>, pool: seq<Candidate>, c: Candidate)
    requires Members(cs, pool) && Predicted(cs, pool) && 0 <= c.rank < |pool| && c.rank !in AsSet(RankList(cs))
    requires c.x == pool[c.rank].x && c.fvalue == pool[c.rank].fvalue
    ensures Members(cs + [c], pool) && Predicted(cs + [c], pool)
    ensures RankList(cs + [c]) == RankList(cs) + [c.rank]
    ensures AsSet(RankList(cs + [c])) == AsSet(RankList(cs)) + {c.rank}
  {
    assert forall i :: 0 <= i < |cs| ==> RankList(cs)[i] == cs[i].rank;
    OneMoreRank(cs, c);
  }

  lemma SetMembers(s: seq<int>)
    ensures forall a :: a in AsSet(s) <==> a in s
  {
  }

  lemma SetAppend(s: seq<int>, a: int)
    ensures AsSet(s + [a]) == AsSet(s) + {a}
  {
    var t := s + [a];
    assert t[|s|] == a;
    forall i | i in s ensures i in t {
      var k :| 0 <= k < |s| && s[k] == i;
      assert t[k] == i;
    }
  }

  lemma OneMoreRank(cs: seq<Candidate>, c: Candidate)
    ensures RankList(cs + [c]) == RankList(cs) + [c.rank]
    ensures AsSet(RankList(cs) + [c.rank]) == AsSet(RankList(cs)) + {c.rank}
  {
    SetAppend(RankList(cs), c.rank);
  }

  function AsSet(s: seq<int>): set<int> {
    set a | a in s
  }

  // ----- the place of a member among the predictions

  /** The chosen ranks whose prediction is below p, and those whose prediction is at most p. */
  function BetterThan(pool: seq<Candidate>, chosen: set<int>, p: real): set<int> {
    set r | r in chosen && 0 <= r < |pool| && pool[r].fvalue < p
  }

  function NotWorseThan(pool: seq<Candidate>, chosen: set<int>, p: real): set<int> {
    set r | r in chosen && 0 <= r < |pool| && pool[r].fvalue <= p
  }

  /** Of the chosen ranks at most a have a better prediction than the given one, and more than a, itself
      included, one that is not worse. At place 0 the prediction is the least of all. */
  predicate HasPlace(pool: seq<Candidate>, chosen: set<int>, rank: int, a: int) {
    && rank in chosen && 0 <= rank < |pool|
    && |BetterThan(pool, chosen, pool[rank].fvalue)| <= a < |NotWorseThan(pool, chosen, pool[rank].fvalue)|
  }

  lemma FirstPlaceIsLeast(pool: seq<Candidate>, chosen: set<int>, rank: int)
    requires HasPlace(pool, chosen, rank, 0)
    ensures forall r :: r in chosen && 0 <= r < |pool| ==> pool[rank].fvalue <= pool[r].fvalue
  {
    assert BetterThan(pool, chosen, pool[rank].fvalue) == {};
    forall r | r in chosen && 0 <= r < |pool| ensures pool[rank].fvalue <= pool[r].fvalue {
      assert r !in BetterThan(pool, chosen, pool[rank].fvalue);
    }
  }

  /** The candidates still carry the pool's predictions. */
  predicate Predicted(cs: seq<Candidate>, pool: seq<Candidate>) {
    forall i :: 0 <= i < |cs| ==> 0 <= cs[i].rank < |pool| && cs[i].fvalue == pool[cs[i].rank].fvalue
  }

  function RanksTo(cs: seq<Candidate>, n: nat): set<int>
    requires n <= |cs|
  {
    set i | 0 <= i < n :: cs[i].rank
  }

  lemma {:induction false} RanksToSize(cs: seq<Candidate>, pool: seq<Candidate>, n: nat)
    requires Members(cs, pool) && n <= |cs|
    ensures |RanksTo(cs, n)| == n
  {
    if n > 0 {
      RanksToSize(cs, pool, n - 1);
      assert RanksTo(cs, n) == RanksTo(cs, n - 1) + {cs[n - 1].rank};
      assert cs[n - 1].rank !in RanksTo(cs, n - 1);
    }
  }

  lemma SubsetSize(s: set<int>, t: set<int>)
    requires s <= t
    ensures |s| <= |t|
  {
    if s != t {
      assert t == s + (t - s);
      assert |t| == |s| + |t - s|;
    }
  }

  /** In the order by prediction position i is the place i. */
  lemma PlaceInOrder(cs: seq<Candidate>, pool: seq<Candidate>, i: nat)
    requires SortedBy(ByValue, cs) && Members(cs, pool) && Predicted(cs, pool) && i < |cs|
    ensures HasPlace(pool, RanksTo(cs, |cs|), cs[i].rank, i)
  {
    var chosen, p := RanksTo(cs, |cs|), cs[i].fvalue;
    RanksToSize(cs, pool, i);
    RanksToSize(cs, pool, i + 1);
    forall j | 0 <= j < |cs|
      ensures (i <= j ==> p <= cs[j].fvalue) && (j <= i ==> cs[j].fvalue <= p)
    {
      assert i == j || (i < j && ByValue(cs[i], cs[j])) || (j < i && ByValue(cs[j], cs[i]));
    }
    forall r | r in BetterThan(pool, chosen, p) ensures r in RanksTo(cs, i) {
      var j :| 0 <= j < |cs| && cs[j].rank == r;
    }
    forall r | r in RanksTo(cs, i + 1) ensures r in NotWorseThan(pool, chosen, p) {
      var j :| 0 <= j < i + 1 && cs[j].rank == r;
    }
    SubsetSize(BetterThan(pool, chosen, p), RanksTo(cs, i));
    SubsetSize(RanksTo(cs, i + 1), NotWorseThan(pool, chosen, p));
  }

  lemma PermutedRanks(r: seq<Candidate>, cs: seq<Candidate>, perm: seq<nat>)
    requires Permuted(r, cs, perm)
    ensures RanksTo(r, |r|) == RanksTo(cs, |cs|)
  {
    forall rank | rank in RanksTo(cs, |cs|) ensures rank in RanksTo(r, |r|) {
      var j :| 0 <= j < |cs| && cs[j].rank == rank;
      var i := PermutedRank(r, cs, perm, j);
      assert r[i].rank == rank;
    }
  }

  /** The pool with predicted values, best first. */
  function RankedPool(points: seq<Vec>, predicted: seq<real>): (r: seq<Candidate>)
    requires |points| == |predicted|
    ensures |r| == |points|
  {
    StableSort(seq(|points|, i requires 0 <= i < |points| => Candidate(predicted[i], points[i], -1, -1)))
  }

  /** Rank 0 is the pool's predicted best. */
  lemma PoolBestFirst(points: seq<Vec>, predicted: seq<real>)
    requires |points| == |predicted| > 0
    ensures Sorted(RankedPool(points, predicted))
    ensures forall i :: 0 <= i < |predicted| ==> RankedPool(points, predicted)[0].fvalue <= predicted[i]
  {
    var pool := seq(|points|, i requires 0 <= i < |points| => Candidate(predicted[i], points[i], -1, -1));
    StableSortSorted(pool);
    HeadIsLeast(pool);
    forall i | 0 <= i < |predicted| ensures StableSort(pool)[0].fvalue <= predicted[i] {
      assert pool[i].fvalue == predicted[i];
    }
  }

  class AcmSurrogate {
    const func: Vec -> real
    var candidates: seq<Candidate>
    var tset: seq<Candidate>
    var l: nat
    var lambda: nat
    var prelambda: real
    var lambdaprime: int
    var nevals: nat

    constructor (func: Vec -> real, lambda: nat, l: nat)
      ensures this.func == func && this.lambda == lambda && this.l == l && tset == [] && nevals == 0
      ensures lambdaprime == lambda / 3 && prelambda == 50.0 * lambda as real
    {
      this.func, this.lambda, this.l := func, lambda, l;
      lambdaprime, prelambda, tset, candidates, nevals := lambda / 3, 50.0 * lambda as real, [], [], 0;
    }

    /** Adds a point; the oldest leaves when the set is full. */
    method AddToTrainingSet(c: Candidate)
      requires |tset| <= l
      modifies `tset
      ensures tset == LastN(old(tset) + [c], l) && |tset| <= l
    {
      tset := tset + [c];
      if |tset| > l {
        tset := tset[1..];
      }
    }

    /** Draws the population from the ranked pool: the best member, then distinct draws until it is full.
        Gives up when the draws run out. */
    method SelectPopulation(draws: seq<real>) returns (ok: bool, cs: seq<Candidate>)
      requires candidates != [] && prelambda >= 0.0
      modifies `candidates
      ensures |candidates| == old(|candidates|)
      ensures forall i :: 0 <= i < |candidates| ==> candidates[i].x == old(candidates)[i].x
      ensures RankList(cs) == Taken(draws, prelambda, |candidates|, lambda, |draws|) && (ok <==> |cs| >= lambda)
      ensures Members(cs, old(candidates)) && Predicted(cs, old(candidates))
    {
      hide Draw, Members, Predicted, AsSet, RankList;
      ghost var pool := candidates;
      FirstMember(pool);
      cs := [candidates[0].(rank := 0)];
      var uh: set<int> := {0};
      var d := 0;
      while |cs| < lambda
        invariant 0 <= d <= |draws| && |candidates| == |pool|
        invariant forall i :: 0 <= i < |pool| ==> candidates[i].x == pool[i].x && candidates[i].fvalue == pool[i].fvalue
        invariant RankList(cs) == Taken(draws, prelambda, |pool|, lambda, d) && uh == AsSet(RankList(cs))
        invariant Members(cs, pool) && Predicted(cs, pool)
        decreases |draws| - d
      {
        if d == |draws| { return false, cs; }
        var a := Draw(prelambda, draws[d]);
        d := d + 1;
        SetMembers(RankList(cs));
        if a < |candidates| && a !in uh {
          uh := uh + {a};
          candidates := candidates[a := candidates[a].(rank := a)];
          OneMoreMember(cs, pool, candidates[a]);
          cs := cs + [candidates[a]];
        }
      }
      TakenEnough(draws, prelambda, |pool|, lambda, d, |draws|);
      ok := true;
    }

    /** Evaluates member a of the population, counts the call and adds it to the training set. */
    method EvaluateMember(cs: seq<Candidate>, a: nat) returns (r: seq<Candidate>)
      requires a < |cs| && |tset| <= l
      modifies `tset, `nevals
      ensures r == cs[a := cs[a].(fvalue := func(cs[a].x))]
      ensures nevals == old(nevals) + 1
      ensures |tset| <= l && tset == LastN(old(tset) + [r[a]], l)
    {
      var fvalue := func(cs[a].x);
      r := cs[a := cs[a].(fvalue := fvalue)];
      AddToTrainingSet(r[a]);
      nevals := nevals + 1;
    }

    /** Evaluates the best-ranked member and distinct drawn ones until lambdaprime are done. u collects the
        evaluated positions, test the evaluated members in order. */
    method EvaluateSome(cs: seq<Candidate>, draws: seq<real>)
      returns (ok: bool, r: seq<Candidate>, u: set<int>, test: seq<Candidate>)
      requires cs != [] && |tset| <= l
      modifies `tset, `nevals
      ensures |tset| <= l && nevals == old(nevals) + |test|
      ensures SomeEvaluated(r, cs, u, Taken(draws, lambda as real, |cs|, lambdaprime, |draws|), test)
      ensures tset == LastN(old(tset) + test, l)
      ensures ok <==> |test| >= lambdaprime
    {
      hide LastN, Draw, SomeEvaluated;
      test, u := [], {};
      assert tset + test == tset && LastN(tset, l) == tset by { LastNAll(tset, l); }
      NoneEvaluated(cs);
      r, u, test := EvaluateNext(cs, cs, u, [], test, 0, tset);
      assert [] + [0] == Taken(draws, lambda as real, |cs|, lambdaprime, 0);
      var count, d := 1, 0;
      while count < lambdaprime
        invariant 0 <= d <= |draws| && |tset| <= l && count == |test|
        invariant nevals == old(nevals) + |test|
        invariant SomeEvaluated(r, cs, u, Taken(draws, lambda as real, |cs|, lambdaprime, d), test)
        invariant tset == LastN(old(tset) + test, l)
        decreases |draws| - d
      {
        EvaluatedShape(r, cs, u, Taken(draws, lambda as real, |cs|, lambdaprime, d), test);
        if d == |draws| { return false, r, u, test; }
        var a := Draw(lambda as real, draws[d]);
        if a < |r| && a !in u {
          r, u, test := EvaluateNext(r, cs, u, Taken(draws, lambda as real, |cs|, lambdaprime, d), test, a, old(tset));
          count := count + 1;
        }
        d := d + 1;
      }
      EvaluatedShape(r, cs, u, Taken(draws, lambda as real, |cs|, lambdaprime, d), test);
      TakenEnough(draws, lambda as real, |cs|, lambdaprime, d, |draws|);
      ok := true;
    }

    /** The members at the positions at, which u collects, carry their true values, and test lists them in
        the order of their evaluation. */
    ghost predicate SomeEvaluated(r: seq<Candidate>, cs: seq<Candidate>, u: set<int>, at: seq<int>,
                                  test: seq<Candidate>)
    {
      && |r| == |cs| && (forall i :: i in u ==> 0 <= i < |cs|)
      && (forall i :: 0 <= i < |cs| ==> r[i] == if i in u then cs[i].(fvalue := func(cs[i].x)) else cs[i])
      && u == AsSet(at) && |u| == |test| == |at|
      && forall k :: 0 <= k < |at| ==> 0 <= at[k] < |r| && test[k] == r[at[k]]
    }

    lemma NoneEvaluated(cs: seq<Candidate>)
      ensures SomeEvaluated(cs, cs, {}, [], [])
    {
    }

    lemma EvaluatedShape(r: seq<Candidate>, cs: seq<Candidate>, u: set<int>, at: seq<int>, test: seq<Candidate>)
      requires SomeEvaluated(r, cs, u, at, test)
      ensures |r| == |cs| && u == AsSet(at) && |u| == |test| == |at|
    {
    }

    lemma OneMoreEvaluated(r: seq<Candidate>, cs: seq<Candidate>, u: set<int>, at: seq<int>, test: seq<Candidate>,
                           a: nat)
      requires SomeEvaluated(r, cs, u, at, test) && a < |r| && a !in u
      ensures var c := r[a].(fvalue := func(r[a].x));
              SomeEvaluated(r[a := c], cs, u + {a}, at + [a], test + [c])
    {
      SetMembers(at);
      SetAppend(at, a);
      hide AsSet;
      assert forall k :: 0 <= k < |at| ==> at[k] in u;
    }

    /** One more member. start is the training set before any of this population. */
    method EvaluateNext(r: seq<Candidate>, ghost cs: seq<Candidate>, u: set<int>, ghost at: seq<int>,
                        test: seq<Candidate>, a: nat, ghost start: seq<Candidate>)
      returns (r': seq<Candidate>, u': set<int>, test': seq<Candidate>)
      requires a < |r| && a !in u && |tset| <= l && SomeEvaluated(r, cs, u, at, test)
      requires tset == LastN(start + test, l)
      modifies `tset, `nevals
      ensures SomeEvaluated(r', cs, u', at + [a], test') && |test'| == |test| + 1
      ensures nevals == old(nevals) + 1 && |tset| <= l && tset == LastN(start + test', l)
    {
      LastNPush(start + test, r[a].(fvalue := func(r[a].x)), l);
      OneMoreEvaluated(r, cs, u, at, test, a);
      hide LastN, SomeEvaluated;
      r' := EvaluateMember(r, a);
      assert start + test + [r'[a]] == start + (test + [r'[a]]);
      u', test' := u + {a}, test + [r'[a]];
    }

    /** Pre-selection. It goes through exactly when the draws suffice. Then the new population has the ranks
        that the first draws take from the pool, exactly max(1, lambdaprime) members are truly evaluated,
        each at the place among the population's predictions that its draw names, the first one with the
        least prediction; they are counted and added to the training set; they come first, and the others
        follow in rank order. */
    method PreSelectionEval(points: seq<Vec>, predicted: seq<real>, draws0: seq<real>, draws1: seq<real>, dblMax: real)
      returns (ok: bool, ghost evaluated: set<int>, test: seq<Candidate>)
      requires points != [] && |points| == |predicted| && prelambda >= 0.0 && |tset| <= l
      modifies `candidates, `tset, `nevals
      ensures |tset| <= l && tset == LastN(old(tset) + test, l)
      ensures nevals == old(nevals) + |test| && forall t :: t in test ==> t.fvalue == func(t.x)
      ensures var chosen := Taken(draws0, prelambda, |points|, lambda, |draws0|);
              ok <==> |chosen| >= lambda
                      && |Taken(draws1, lambda as real, |chosen|, lambdaprime, |draws1|)| >= lambdaprime
      ensures ok ==>
                var pool, n := RankedPool(points, predicted), |candidates|;
                && n == (if lambda < 1 then 1 else lambda) && Members(candidates, pool)
                && RanksTo(candidates, n) == AsSet(Taken(draws0, prelambda, |points|, lambda, |draws0|))
                && InTurn(pool, RanksTo(candidates, n), test, Taken(draws1, lambda as real, n, lambdaprime, |draws1|))
                && evaluated == AsSet(RankList(test)) <= RanksTo(candidates, n) && 0 in RanksTo(candidates, n)
                && |evaluated| == |test| == (if lambdaprime < 1 then 1 else lambdaprime)
                && ValuesSplit(candidates, evaluated, func, dblMax)
                && (EvaluatedFirst(candidates, evaluated) <==> Separated(candidates, evaluated, dblMax))
                && ((forall t :: t in test ==> t.fvalue < dblMax) ==> EvaluatedFirst(candidates, evaluated))
    {
      OrdersAreTotal();
      hide Members, ValuesSplit, EvaluatedFirst, Separated, ByValueThenRank, TotalPreorder, LastN, StableSort, Taken,
        SomeEvaluated, RanksTo, AsSet, InTurn, Predicted, SortedBy, Permuted;
      ghost var pool := RankedPool(points, predicted);
      candidates := RankedPool(points, predicted);
      test, evaluated := [], {};
      var cs, u, drawn;
      ok, cs := SelectPopulation(draws0);
      LastNAll(tset, l);
      if !ok {
        assert tset + test == tset;
        return;
      }
      ghost var perm;
      drawn := cs;
      cs, perm := Sort(ByValue, drawn);
      ghost var order := cs;
      SortedSelection(order, drawn, perm, pool);
      ok, cs, u, test := EvaluateSome(cs, draws1);
      ghost var at := Taken(draws1, lambda as real, |order|, lambdaprime, |draws1|);
      TrueValues(cs, order, u, at, test);
      if !ok { return; }
      TestInTurn(cs, order, u, at, test, pool);
      EvaluatedWithin(pool, RanksTo(order, |order|), test, at);
      FirstTaken(draws0, prelambda, |points|, lambda);
      candidates, evaluated := Arrange(order, cs, u, at, test, pool, dblMax);
    }

    lemma TrueValues(cs: seq<Candidate>, order: seq<Candidate>, u: set<int>, at: seq<int>, test: seq<Candidate>)
      requires SomeEvaluated(cs, order, u, at, test)
      ensures |cs| == |order| && |test| == |at| == |u|
      ensures (forall t :: t in test ==> t.fvalue == func(t.x)) && (at != [] ==> at[0] in u)
    {
      forall t | t in test ensures t.fvalue == func(t.x) {
        var k :| 0 <= k < |test| && test[k] == t;
        assert at[k] in u;
      }
    }

    /** The evaluated members are at the places that the draws name. */
    lemma TestInTurn(cs: seq<Candidate>, order: seq<Candidate>, u: set<int>, at: seq<int>, test: seq<Candidate>,
                     pool: seq<Candidate>)
      requires SomeEvaluated(cs, order, u, at, test)
      requires SortedBy(ByValue, order) && Members(order, pool) && Predicted(order, pool)
      ensures InTurn(pool, RanksTo(order, |order|), test, at)
    {
      hide SortedBy, Members, Predicted, HasPlace, RanksTo;
      forall k | 0 <= k < |test| ensures HasPlace(pool, RanksTo(order, |order|), test[k].rank, at[k]) {
        assert test[k].rank == order[at[k]].rank;
        PlaceInOrder(order, pool, at[k]);
      }
    }

    /** Marks the members that were not evaluated and sorts the evaluated ones to the front. */
    method Arrange(ghost order: seq<Candidate>, cs: seq<Candidate>, u: set<int>, ghost at: seq<int>,
                   ghost test: seq<Candidate>, ghost pool: seq<Candidate>, dblMax: real)
      returns (r: seq<Candidate>, ghost evaluated: set<int>)
      requires SomeEvaluated(cs, order, u, at, test) && Members(order, pool) && 0 in u
      ensures |r| == |cs| && Members(r, pool) && RanksTo(r, |r|) == RanksTo(order, |order|)
      ensures |evaluated| == |u| && evaluated == AsSet(RankList(test))
      ensures ValuesSplit(r, evaluated, func, dblMax)
      ensures EvaluatedFirst(r, evaluated) <==> Separated(r, evaluated, dblMax)
      ensures (forall t :: t in test ==> t.fvalue < dblMax) ==> EvaluatedFirst(r, evaluated)
    {
      OrdersAreTotal();
      hide Members, ValuesSplit, EvaluatedFirst, Separated, RanksOf, ByValueThenRank, TotalPreorder, AsSet, RanksTo;
      var marked := MarkUnevaluated(cs, u, dblMax);
      evaluated := RanksOf(order, u, |order|);
      RanksOfSize(order, u, |order|, pool);
      assert Below(u, |order|) == u;
      EvaluatedRanks(cs, order, u, at, test);
      MarkedPopulation(order, marked, u, pool, func, dblMax);
      InTest(cs, order, u, at, test);
      MarkedBelow(order, marked, u, pool, test, dblMax);
      ghost var perm;
      r, perm := Sort(ByValueThenRank, marked);
      FinalPopulation(r, marked, perm, pool, evaluated, func, dblMax);
      PermutedRanks(r, marked, perm);
      SameRanks(marked, order);
    }

    lemma InTest(cs: seq<Candidate>, order: seq<Candidate>, u: set<int>, at: seq<int>, test: seq<Candidate>)
      requires SomeEvaluated(cs, order, u, at, test)
      ensures forall i :: i in u ==> 0 <= i < |cs| && cs[i] in test
    {
      forall i | i in u ensures 0 <= i < |cs| && cs[i] in test {
        var k :| 0 <= k < |at| && at[k] == i;
        assert test[k] == cs[i];
      }
    }

    lemma EvaluatedRanks(cs: seq<Candidate>, order: seq<Candidate>, u: set<int>, at: seq<int>, test: seq<Candidate>)
      requires SomeEvaluated(cs, order, u, at, test)
      ensures RanksOf(order, u, |order|) == AsSet(RankList(test))
    {
      hide RanksOf;
      forall rank ensures rank in RanksOf(order, u, |order|) <==> rank in RankList(test) {
        RankMembership(order, u, |order|, rank);
        if rank in RankList(test) {
          var k :| 0 <= k < |test| && RankList(test)[k] == rank;
          assert at[k] in u && order[at[k]].rank == rank;
        }
        if i :| 0 <= i < |order| && i in u && order[i].rank == rank {
          var k :| 0 <= k < |at| && at[k] == i;
          assert RankList(test)[k] == rank;
        }
      }
    }
  }

  /** The evaluated members in turn, each at the place among the predictions that at names. */
  predicate InTurn(pool: seq<Candidate>, chosen: set<int>, test: seq<Candidate>, at: seq<int>) {
    |test| == |at| && forall k :: 0 <= k < |at| ==> HasPlace(pool, chosen, test[k].rank, at[k])
  }

  lemma EvaluatedWithin(pool: seq<Candidate>, chosen: set<int>, test: seq<Candidate>, at: seq<int>)
    requires InTurn(pool, chosen, test, at)
    ensures AsSet(RankList(test)) <= chosen
  {
    forall rank | rank in AsSet(RankList(test)) ensures rank in chosen {
      var k :| 0 <= k < |test| && RankList(test)[k] == rank;
      assert HasPlace(pool, chosen, test[k].rank, at[k]);
    }
  }

  lemma FirstTaken(draws: seq<real>, s: real, bound: int, need: int)
    requires s >= 0.0
    ensures 0 in AsSet(Taken(draws, s, bound, need, |draws|))
  {
    var r := Taken(draws, s, bound, need, |draws|);
    assert r[0] in r;
  }

  lemma SameRanks(r: seq<Candidate>, cs: seq<Candidate>)
    requires |r| == |cs| && forall i :: 0 <= i < |r| ==> r[i].rank == cs[i].rank
    ensures RanksTo(r, |r|) == RanksTo(cs, |cs|)
  {
    forall rank | rank in RanksTo(cs, |cs|) ensures rank in RanksTo(r, |r|) {
      var i :| 0 <= i < |cs| && cs[i].rank == rank;
      assert r[i].rank == rank;
    }
  }

  /** The drawn population in the order of the predictions. */
  lemma SortedSelection(order: seq<Candidate>, drawn: seq<Candidate>, perm: seq<nat>, pool: seq<Candidate>)
    requires Permuted(order, drawn, perm) && Members(drawn, pool) && Predicted(drawn, pool)
    ensures |order| == |drawn| && Members(order, pool) && Predicted(order, pool)
    ensures RanksTo(order, |order|) == AsSet(RankList(drawn))
  {
    PermutedMembers(order, drawn, perm, pool);
    PermutedRanks(order, drawn, perm);
    forall rank ensures rank in RanksTo(drawn, |drawn|) <==> rank in RankList(drawn) {
      if rank in RankList(drawn) {
        var k :| 0 <= k < |drawn| && RankList(drawn)[k] == rank;
        assert drawn[k].rank == rank;
      }
      if rank in RanksTo(drawn, |drawn|) {
        var k :| 0 <= k < |drawn| && drawn[k].rank == rank;
        assert RankList(drawn)[k] == rank;
      }
    }
  }

  /** The final sort keeps the split, and puts the evaluated members first. */
  lemma FinalPopulation(r: seq<Candidate>, cs: seq<Candidate>, perm: seq<nat>, pool: seq<Candidate>, u: set<int>,
                        func: Vec -> real, dblMax: real)
    requires Permuted(r, cs, perm) && Members(cs, pool) && ValuesSplit(cs, u, func, dblMax)
    requires SortedBy(ByValueThenRank, r)
    requires forall rank :: rank in u ==> HasRank(cs, rank)
    ensures Members(r, pool) && ValuesSplit(r, u, func, dblMax)
    ensures EvaluatedFirst(r, u) <==> Separated(r, u, dblMax)
    ensures ValuesBelow(cs, u, dblMax) ==> EvaluatedFirst(r, u)
    ensures forall rank :: rank in u ==> HasRank(r, rank)
  {
    hide Separated;
    PermutedMembers(r, cs, perm, pool);
    PermutedSplit(r, cs, perm, u, func, dblMax);
    FinalOrder(r, pool, u, func, dblMax);
    forall rank | rank in u ensures HasRank(r, rank) {
      var j :| 0 <= j < |cs| && cs[j].rank == rank;
      var i := PermutedRank(r, cs, perm, j);
    }
  }

  /** Gives the largest double to the members that were not evaluated. */
  method MarkUnevaluated(cs: seq<Candidate>, u: set<int>, dblMax: real) returns (r: seq<Candidate>)
    requires 0 in u
    ensures |r| == |cs| && forall i :: 0 <= i < |cs| ==> r[i] == if i in u then cs[i] else cs[i].(fvalue := dblMax)
  {
    r := cs;
    var i := 1;
    while i < |cs|
      invariant 1 <= i && |r| == |cs|
      invariant forall j :: i <= j < |cs| ==> r[j] == cs[j]
      invariant forall j :: 0 <= j < i && j < |cs| ==> r[j] == if j in u then cs[j] else cs[j].(fvalue := dblMax)
    {
      if i !in u {
        r := r[i := r[i].(fvalue := dblMax)];
      }
      i := i + 1;
    }
  }
}
