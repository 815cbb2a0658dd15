/** Elitism: the best point seen is reinjected into a generation that did not improve enough, so that the
    best value of the generations never gets worse. */
module Elitism {
  import opened LinearAlgebra
  import opened RealFunctions
  import opened Solutions
  import opened Sorting
  import opened Wrappers

  // ----- the mode

  datatype Flags = Flags(elitist: bool, initialElitist: bool, onRestart: bool)

  /** Selecting a mode assigns the three flags. */
  function SetElitism(f: Flags, mode: int): Flags {
    if mode == 0 then Flags(f.onRestart, f.onRestart, f.onRestart)
    else if mode == 1 then Flags(true, false, false)
    else if mode == 2 then Flags(false, true, false)
    else if mode == 3 then Flags(false, false, true)
    else f
  }

  /** Modes 1 to 3 turn on exactly one flag from any state. Mode 0 is documented as no elitism; it turns
      everything off exactly when the restart flag was off, and everything on otherwise. */
  lemma ModeEffects(f: Flags)
    ensures SetElitism(f, 0) == Flags(false, false, false) <==> !f.onRestart
    ensures f.onRestart ==> SetElitism(f, 0) == Flags(true, true, true)
    ensures SetElitism(SetElitism(f, 1), 0) == SetElitism(SetElitism(f, 2), 0) == Flags(false, false, false)
    ensures forall mode :: 1 <= mode <= 3 ==>
              var g := SetElitism(f, mode);
              (g.elitist <==> mode == 1) && (g.initialElitist <==> mode == 2) && (g.onRestart <==> mode == 3)
    ensures forall mode :: mode < 0 || mode > 3 ==> SetElitism(f, mode) == f
  {
  }

  // ----- one generation

  /** How many of the first n candidates are better than a value. */
  function CountBelow(cs: seq<Candidate>, value: real, n: nat): nat
    requires n <= |cs|
  {
    if n == 0 then 0 else CountBelow(cs, value, n - 1) + (if cs[n - 1].fvalue < value then 1 else 0)
  }

  lemma {:induction false} CountBelowZero(cs: seq<Candidate>, value: real, n: nat)
    requires n <= |cs|
    ensures CountBelow(cs, value, n) <= n
    ensures CountBelow(cs, value, n) == 0 <==> forall i :: 0 <= i < n ==> cs[i].fvalue >= value
  {
    if n > 0 { CountBelowZero(cs, value, n - 1); }
  }

  /** The reference replaces candidate 1 when fewer than half of the candidates beat it. */
  function Reinject(cs: seq<Candidate>, ref: Candidate): (r: seq<Candidate>)
    requires |cs| >= 2
    ensures |r| == |cs|
  {
    if CountBelow(cs, ref.fvalue, |cs|) < |cs| / 2 then cs[1 := ref] else cs
  }

  /** After reinjection, some candidate is at least as good as the reference. */
  lemma ReinjectedBest(cs: seq<Candidate>, ref: Candidate)
    requires |cs| >= 2
    ensures exists i :: 0 <= i < |cs| && Reinject(cs, ref)[i].fvalue <= ref.fvalue
  {
    CountBelowZero(cs, ref.fvalue, |cs|);
    if CountBelow(cs, ref.fvalue, |cs|) < |cs| / 2 {
      assert Reinject(cs, ref)[1] == ref;
    } else {
      var i :| 0 <= i < |cs| && cs[i].fvalue < ref.fvalue;
      assert Reinject(cs, ref)[i].fvalue <= ref.fvalue;
    }
  }

  /** The best candidate after reinjection is at least as good as the reference. */
  lemma BestOfReinjected(cs: seq<Candidate>, ref: Candidate)
    requires |cs| >= 2
    ensures StableSort(Reinject(cs, ref)) != [] && StableSort(Reinject(cs, ref))[0].fvalue <= ref.fvalue
  {
    ReinjectedBest(cs, ref);
    hide StableSort, Reinject;
    HeadIsLeast(Reinject(cs, ref));
    var i :| 0 <= i < |cs| && Reinject(cs, ref)[i].fvalue <= ref.fvalue;
  }

  /** The best-seen candidate after a generation whose best is c. */
  function Seen(seen: Option<Candidate>, niter: nat, c: Candidate): (r: Option<Candidate>)
    ensures r.Some? <==> niter == 0 || seen.Some?
  {
    match seen
    case None => if niter == 0 then Some(c) else None
    case Some(b) => if c.fvalue < b.fvalue then Some(c) else seen
  }

  /** The search as elitism sees it: the best seen, the generation count and the best value of every
      generation so far. */
  datatype Search = Search(seen: Option<Candidate>, niter: nat, best: seq<real>)

  /** One generation with the best-seen candidate as reference (mode 1). */
  function Generation(s: Search, evaluated: seq<Candidate>): Search
    requires |evaluated| >= 2 && (s.niter > 0 ==> s.seen.Some?)
  {
    var pop := if s.niter > 0 then Reinject(evaluated, s.seen.value) else evaluated;
    var c := StableSort(pop)[0];
    Search(Seen(s.seen, s.niter, c), s.niter + 1, s.best + [c.fvalue])
  }

  /** From the second generation on, the generation's best equals the best seen; the first one is never
      better than it. */
  lemma GenerationMatchesSeen(s: Search, evaluated: seq<Candidate>)
    requires |evaluated| >= 2 && (s.niter > 0 ==> s.seen.Some?)
    ensures var s' := Generation(s, evaluated);
            && s'.seen.Some?
            && s'.best[|s.best|] >= s'.seen.value.fvalue
            && (s.niter > 0 ==> s'.best[|s.best|] == s'.seen.value.fvalue <= s.seen.value.fvalue)
            && (s.seen.Some? ==> s'.seen.value.fvalue <= s.seen.value.fvalue)
  {
    hide StableSort, Reinject;
    if s.niter > 0 { BestOfReinjected(evaluated, s.seen.value); }
  }

  function RunGenerations(s: Search, gens: seq<seq<Candidate>>): (s': Search)
    requires s.niter == |s.best| == 0 && forall i :: 0 <= i < |gens| ==> |gens[i]| >= 2
    ensures s'.niter == |s'.best| == |gens| && (gens != [] ==> s'.seen.Some?)
    decreases |gens|
  {
    if gens == [] then s
    else
      var prev := RunGenerations(s, gens[..|gens| - 1]);
      GenerationMatchesSeen(prev, gens[|gens| - 1]);
      Generation(prev, gens[|gens| - 1])
  }

  /** Over a whole run in mode 1, whatever the objective returns: the best values of the generations never
      increase, and from the second generation on the last one is the best value seen. */
  lemma {:induction false} ElitistRunMonotone(s: Search, gens: seq<seq<Candidate>>)
    requires s.niter == |s.best| == 0 && forall i :: 0 <= i < |gens| ==> |gens[i]| >= 2
    ensures var r := RunGenerations(s, gens);
            && (forall i, j :: 0 <= i < j < |gens| ==> r.best[i] >= r.best[j])
            && (gens != [] ==> r.best[|gens| - 1] >= r.seen.value.fvalue)
            && (|gens| >= 2 ==> r.best[|gens| - 1] == r.seen.value.fvalue)
    decreases |gens|
  {
    hide Generation, RunGenerations;
    if gens != [] {
      var before, last := gens[..|gens| - 1], gens[|gens| - 1];
      ElitistRunMonotone(s, before);
      LastGeneration(s, gens);
      var prev := RunGenerations(s, before);
      GenerationMatchesSeen(prev, last);
      GenerationAppends(prev, last);
      AppendedMonotone(prev.best, Generation(prev, last).best);
    }
  }

  lemma LastGeneration(s: Search, gens: seq<seq<Candidate>>)
    requires s.niter == |s.best| == 0 && (forall i :: 0 <= i < |gens| ==> |gens[i]| >= 2) && gens != []
    ensures var prev := RunGenerations(s, gens[..|gens| - 1]);
            && (prev.niter > 0 ==> prev.seen.Some?)
            && RunGenerations(s, gens) == Generation(prev, gens[|gens| - 1])
  {
  }

  /** Appending a value that is not above the last one keeps a sequence non-increasing. */
  lemma AppendedMonotone(v: seq<real>, w: seq<real>)
    requires |w| == |v| + 1 && forall i :: 0 <= i < |v| ==> w[i] == v[i]
    requires forall i, j :: 0 <= i < j < |v| ==> v[i] >= v[j]
    requires |v| > 0 ==> w[|v|] <= v[|v| - 1]
    ensures forall i, j :: 0 <= i < j < |w| ==> w[i] >= w[j]
  {
    forall i, j | 0 <= i < j < |w| ensures w[i] >= w[j] {
      if j == |v| { assert i == |v| - 1 || v[i] >= v[|v| - 1]; }
    }
  }

  lemma HeadBelow(cs: seq<Candidate>, k: nat)
    requires Sorted(cs) && k < |cs|
    ensures cs[0].fvalue <= cs[k].fvalue
  {
    if k > 0 { assert cs[0].fvalue <= cs[k].fvalue; }
  }

  lemma GenerationAppends(s: Search, evaluated: seq<Candidate>)
    requires |evaluated| >= 2 && (s.niter > 0 ==> s.seen.Some?)
    ensures |Generation(s, evaluated).best| == |s.best| + 1
    ensures forall i :: 0 <= i < |s.best| ==> Generation(s, evaluated).best[i] == s.best[i]
  {
  }

  // ----- what reinjection can lose

  /** The least value of a population. */
  function Least(cs: seq<Candidate>): (m: real)
    requires cs != []
    ensures forall i :: 0 <= i < |cs| ==> m <= cs[i].fvalue
    ensures exists i :: 0 <= i < |cs| && cs[i].fvalue == m
  {
    if |cs| == 1 then cs[0].fvalue
    else
      var m := Least(cs[..|cs| - 1]);
      var i :| 0 <= i < |cs| - 1 && cs[..|cs| - 1][i].fvalue == m;
      assert cs[i].fvalue == m;
      Min(m, cs[|cs| - 1].fvalue)
  }

  /** Reinjection overwrites candidate 1. */
  predicate OverwritesUniqueBest(cs: seq<Candidate>, ref: Candidate)
    requires |cs| >= 2
  {
    && CountBelow(cs, ref.fvalue, |cs|) < |cs| / 2
    && cs[1].fvalue < ref.fvalue
    && forall i :: 0 <= i < |cs| && i != 1 ==> cs[1].fvalue < cs[i].fvalue
  }

  /** The best seen is the least value ever evaluated exactly as long as reinjection does not overwrite
      a candidate 1 that alone is best: otherwise that evaluation is lost. */
  lemma BestSeenIsLeastIff(s: Search, evaluated: seq<Candidate>)
    requires |evaluated| >= 2 && s.niter > 0 && s.seen.Some?
    ensures GenerationLeast(s, evaluated) == Min(s.seen.value.fvalue, Least(evaluated))
            <==> !OverwritesUniqueBest(evaluated, s.seen.value)
  {
    var ref := s.seen.value;
    GenerationLeastValue(s, evaluated);
    hide CountBelow, Least, GenerationLeast;
    if CountBelow(evaluated, ref.fvalue, |evaluated|) < |evaluated| / 2 {
      LeastAfterOverwrite(evaluated, ref);
    }
  }

  lemma GenerationLeastValue(s: Search, evaluated: seq<Candidate>)
    requires |evaluated| >= 2 && s.niter > 0 && s.seen.Some?
    ensures GenerationLeast(s, evaluated) == Min(s.seen.value.fvalue, Least(Reinject(evaluated, s.seen.value)))
  {
    var pop := Reinject(evaluated, s.seen.value);
    HeadIsLeast(pop);
    hide StableSort, Least, Reinject;
    var k :| 0 <= k < |pop| && pop[k] == StableSort(pop)[0];
    assert StableSort(pop)[0].fvalue == Least(pop);
  }

  lemma LeastAfterOverwrite(cs: seq<Candidate>, ref: Candidate)
    requires |cs| >= 2
    ensures Min(ref.fvalue, Least(cs[1 := ref])) == Min(ref.fvalue, Least(cs))
            <==> !(cs[1].fvalue < ref.fvalue && forall i :: 0 <= i < |cs| && i != 1 ==> cs[1].fvalue < cs[i].fvalue)
  {
    hide Least;
    var pop := cs[1 := ref];
    var i :| 0 <= i < |cs| && cs[i].fvalue == Least(cs);
    var k :| 0 <= k < |pop| && pop[k].fvalue == Least(pop);
    assert i != 1 ==> pop[i] == cs[i];
    assert k != 1 ==> pop[k] == cs[k];
    if j :| 0 <= j < |cs| && j != 1 && cs[j].fvalue <= cs[1].fvalue {
      assert pop[j] == cs[j];
    }
  }

  // ----- what a whole run can lose

  /** The candidate that reinjection overwrites in a generation, if it does. */
  function Overwritten(s: Search, evaluated: seq<Candidate>): Option<Candidate>
    requires |evaluated| >= 2 && (s.niter > 0 ==> s.seen.Some?)
  {
    if s.niter > 0 && CountBelow(evaluated, s.seen.value.fvalue, |evaluated|) < |evaluated| / 2
    then Some(evaluated[1]) else None
  }

  /** A run from its start: every generation has candidates. */
  predicate Runs(s: Search, gens: seq<seq<Candidate>>) {
    s.niter == |s.best| == 0 && forall g :: 0 <= g < |gens| ==> |gens[g]| >= 2
  }

  /** The candidate overwritten in generation g of a run. */
  function OverwrittenAt(s: Search, gens: seq<seq<Candidate>>, g: nat): Option<Candidate>
    requires Runs(s, gens) && g < |gens|
  {
    Overwritten(RunGenerations(s, gens[..g]), gens[g])
  }

  /** No value evaluated in the run is below v. */
  predicate NoneBelow(gens: seq<seq<Candidate>>, v: real) {
    forall g, i :: 0 <= g < |gens| && 0 <= i < |gens[g]| ==> v <= gens[g][i].fvalue
  }

  /** No overwritten candidate of the run is below v. */
  predicate NoneLostBelow(s: Search, gens: seq<seq<Candidate>>, v: real)
    requires Runs(s, gens)
  {
    forall g :: 0 <= g < |gens| && OverwrittenAt(s, gens, g).Some? ==> v <= OverwrittenAt(s, gens, g).value.fvalue
  }

  /** Over a whole run, the final best seen is the least of all evaluated values exactly when no overwritten
      candidate was better than it; and it is always a value that was evaluated, or the initial one. */
  lemma RunLeastIff(s: Search, gens: seq<seq<Candidate>>)
    requires Runs(s, gens) && gens != []
    ensures var v := RunGenerations(s, gens).seen.value.fvalue;
            && (NoneBelow(gens, v) <==> NoneLostBelow(s, gens, v))
            && (s.seen.Some? ==> v <= s.seen.value.fvalue)
            && WasEvaluated(s, gens, v)
  {
    var v := RunGenerations(s, gens).seen.value.fvalue;
    SeenIsEvaluated(s, gens);
    hide RunGenerations, CountBelow;
    forall g: nat, i: nat | g < |gens| && i < |gens[g]|
      ensures v <= gens[g][i].fvalue || (OverwrittenAt(s, gens, g) == Some(gens[g][1]) && i == 1)
    {
      SurvivorSeen(s, gens, g, i);
    }
    if NoneLostBelow(s, gens, v) {
      forall g, i | 0 <= g < |gens| && 0 <= i < |gens[g]| ensures v <= gens[g][i].fvalue {
      }
    }
    if NoneBelow(gens, v) {
      forall g | 0 <= g < |gens| && OverwrittenAt(s, gens, g).Some?
        ensures v <= OverwrittenAt(s, gens, g).value.fvalue
      {
        assert OverwrittenAt(s, gens, g).value == gens[g][1];
      }
    }
  }

  /** The value was evaluated in the run or is the initial one. */
  predicate WasEvaluated(s: Search, gens: seq<seq<Candidate>>, v: real) {
    || (s.seen.Some? && v == s.seen.value.fvalue)
    || exists g, i :: 0 <= g < |gens| && 0 <= i < |gens[g]| && gens[g][i].fvalue == v
  }

  /** After generation g, everything that was not overwritten is at least the best seen, for ever. */
  lemma {:induction false} SurvivorSeen(s: Search, gens: seq<seq<Candidate>>, g: nat, i: nat)
    requires Runs(s, gens) && g < |gens| && i < |gens[g]|
    ensures RunGenerations(s, gens).seen.Some?
    ensures RunGenerations(s, gens).seen.value.fvalue <= gens[g][i].fvalue
            || (OverwrittenAt(s, gens, g) == Some(gens[g][1]) && i == 1)
    decreases |gens|
  {
    hide RunGenerations, Generation, Overwritten;
    var before, last := gens[..|gens| - 1], gens[|gens| - 1];
    LastGeneration(s, gens);
    var prev := RunGenerations(s, before);
    GenerationMatchesSeen(prev, last);
    if g < |before| {
      SurvivorSeen(s, before, g, i);
      assert before[..g] == gens[..g];
    } else {
      SeenBelowSurvivors(prev, last, i);
    }
  }

  lemma SeenBelowSurvivors(s: Search, evaluated: seq<Candidate>, i: nat)
    requires |evaluated| >= 2 && (s.niter > 0 ==> s.seen.Some?) && i < |evaluated|
    ensures Generation(s, evaluated).seen.Some?
    ensures Generation(s, evaluated).seen.value.fvalue <= evaluated[i].fvalue
            || (Overwritten(s, evaluated) == Some(evaluated[1]) && i == 1)
  {
    hide StableSort, CountBelow;
    var pop := if s.niter > 0 then Reinject(evaluated, s.seen.value) else evaluated;
    HeadIsLeast(pop);
    assert StableSort(pop)[0].fvalue <= pop[i].fvalue;
    assert pop[i] == evaluated[i] || (Overwritten(s, evaluated) == Some(evaluated[1]) && i == 1);
  }

  lemma {:induction false} SeenIsEvaluated(s: Search, gens: seq<seq<Candidate>>)
    requires Runs(s, gens) && gens != []
    ensures var r := RunGenerations(s, gens);
            && r.seen.Some? && WasEvaluated(s, gens, r.seen.value.fvalue)
            && (s.seen.Some? ==> r.seen.value.fvalue <= s.seen.value.fvalue)
    decreases |gens|
  {
    hide RunGenerations, Generation;
    var before, last := gens[..|gens| - 1], gens[|gens| - 1];
    LastGeneration(s, gens);
    var prev := RunGenerations(s, before);
    GenerationMatchesSeen(prev, last);
    var v := RunGenerations(s, gens).seen.value.fvalue;
    if before == [] { NoGenerations(s); } else { SeenIsEvaluated(s, before); }
    SeenComesFrom(prev, last);
    if i :| 0 <= i < |last| && last[i].fvalue == v {
      assert gens[|gens| - 1][i].fvalue == v;
    } else if before != [] {
      EvaluatedEarlier(s, before, gens, v);
    }
  }

  lemma NoGenerations(s: Search)
    requires Runs(s, [])
    ensures RunGenerations(s, []) == s
  {
  }

  lemma EvaluatedEarlier(s: Search, before: seq<seq<Candidate>>, gens: seq<seq<Candidate>>, v: real)
    requires |before| <= |gens| && before == gens[..|before|] && WasEvaluated(s, before, v)
    ensures WasEvaluated(s, gens, v)
  {
    if g, i :| 0 <= g < |before| && 0 <= i < |before[g]| && before[g][i].fvalue == v {
      assert gens[g][i].fvalue == v;
    }
  }

  /** The best seen after a generation is the one before or comes from the generation. */
  lemma SeenComesFrom(s: Search, evaluated: seq<Candidate>)
    requires |evaluated| >= 2 && (s.niter > 0 ==> s.seen.Some?)
    ensures var r := Generation(s, evaluated).seen;
            r.Some? && (r == s.seen || exists i :: 0 <= i < |evaluated| && evaluated[i].fvalue == r.value.fvalue)
  {
    hide StableSort, CountBelow;
    var pop := if s.niter > 0 then Reinject(evaluated, s.seen.value) else evaluated;
    HeadIsLeast(pop);
    var k :| 0 <= k < |pop| && pop[k] == StableSort(pop)[0];
    if pop[k] != evaluated[k] {
      assert pop[k] == s.seen.value;
    } else {
      assert evaluated[k].fvalue == StableSort(pop)[0].fvalue;
    }
  }

  function GenerationLeast(s: Search, evaluated: seq<Candidate>): real
    requires |evaluated| >= 2 && s.niter > 0 && s.seen.Some?
  {
    GenerationMatchesSeen(s, evaluated);
    Generation(s, evaluated).seen.value.fvalue
  }

  lemma OneImproves(cs: seq<Candidate>)
    requires |cs| == 4 && cs[0].fvalue == 6.0 && cs[1].fvalue == 1.0 && cs[2].fvalue == 7.0 && cs[3].fvalue == 8.0
    ensures CountBelow(cs, 5.0, 4) == 1
  {
    assert CountBelow(cs, 5.0, 1) == 0;
    assert CountBelow(cs, 5.0, 2) == 1;
    assert CountBelow(cs, 5.0, 3) == 1;
  }

  /** A concrete loss: with best seen 5, the only improving candidate, of value 1, is overwritten. */
  lemma ImprovementLost(x: Vec)
    ensures var seen := Candidate(5.0, x, 0, 0);
            var cs := [Candidate(6.0, x, 0, 0), Candidate(1.0, x, 1, 0),
                       Candidate(7.0, x, 2, 0), Candidate(8.0, x, 3, 0)];
            GenerationLeast(Search(Some(seen), 1, [5.0]), cs) == 5.0
  {
    var seen := Candidate(5.0, x, 0, 0);
    var cs := [Candidate(6.0, x, 0, 0), Candidate(1.0, x, 1, 0), Candidate(7.0, x, 2, 0), Candidate(8.0, x, 3, 0)];
    hide StableSort, CountBelow;
    OneImproves(cs);
    var pop := Reinject(cs, seen);
    assert pop == cs[1 := seen];
    HeadIsLeast(pop);
    assert pop[1].fvalue == 5.0;
  }

  /** The worst candidate seen, after a generation that ends with a candidate. */
  function WorstSeen(worst: Option<Candidate>, niter: nat, c: Candidate): Option<Candidate> {
    if (niter == 0 && worst == None) || (worst.Some? && c.fvalue > worst.value.fvalue) then Some(c) else worst
  }

  /** Best and worst seen bound every generation's best and worst from the first one on; equal values do
      not replace them. */
  lemma SeenBounds(seen: Option<Candidate>, worst: Option<Candidate>, niter: nat, c: Candidate, last: Candidate)
    requires niter > 0 ==> seen.Some? && worst.Some?
    ensures var r, w := Seen(seen, niter, c), WorstSeen(worst, niter, last);
            && r.Some? && r.value.fvalue <= c.fvalue && (r.value == c || r == seen)
            && (seen.Some? ==> r.value.fvalue <= seen.value.fvalue)
            && w.Some? && w.value.fvalue >= last.fvalue && (w.value == last || w == worst)
            && (worst.Some? ==> w.value.fvalue >= worst.value.fvalue)
            && (seen.Some? && c.fvalue == seen.value.fvalue ==> r == seen)
            && (worst.Some? && last.fvalue == worst.value.fvalue ==> w == worst)
  {
  }

  // ----- histories

  /** A history with one more entry, cut from the front to a maximal length. */
  function Pushed<T>(hist: seq<T>, x: T, maxLen: int): (r: seq<T>)
    ensures |r| <= |hist| + 1
    ensures |hist| <= maxLen ==> |r| <= maxLen || |r| == 0
    ensures maxLen >= 1 ==> r != [] && r[|r| - 1] == x
  {
    var h := hist + [x];
    if |h| > maxLen then h[1..] else h
  }

  /** Entry by entry, a history of maximal length n holds the last n of everything that was pushed. */
  lemma PushedIsLast<T>(s: seq<T>, x: T, n: nat)
    requires n >= 1
    ensures Pushed(LastN(s, n), x, n) == LastN(s + [x], n)
  {
    LastNPush(s, x, n);
    LastNAll(LastN(s, n) + [x], |s| + 1);
  }

  /** The median value of a sorted population. */
  function Median(cs: seq<Candidate>): real
    requires cs != []
  {
    var n := |cs|;
    if n % 2 == 0 then (cs[n / 2 - 1].fvalue + cs[n / 2].fvalue) / 2.0 else cs[n / 2].fvalue
  }

  /** The median of a sorted population is the mean of its two middle values, or of its middle value
      twice: half of the population is not above it, and half is not below. */
  lemma MedianBetween(cs: seq<Candidate>)
    requires cs != [] && Sorted(cs)
    ensures cs[0].fvalue <= Median(cs) <= cs[|cs| - 1].fvalue
    ensures 2.0 * Median(cs) == cs[(|cs| - 1) / 2].fvalue + cs[|cs| / 2].fvalue
    ensures forall i :: 0 <= i <= (|cs| - 1) / 2 ==> cs[i].fvalue <= Median(cs)
    ensures forall i :: |cs| / 2 <= i < |cs| ==> Median(cs) <= cs[i].fvalue
  {
    var n := |cs|;
    assert (n - 1) / 2 == if n % 2 == 0 then n / 2 - 1 else n / 2;
    forall i, j | 0 <= i <= j < n ensures cs[i].fvalue <= cs[j].fvalue {
      if i < j { assert cs[i].fvalue <= cs[j].fvalue; }
    }
    assert n > 1 ==> cs[0].fvalue <= cs[n / 2].fvalue;
    assert n > 2 ==> cs[n / 2].fvalue <= cs[n - 1].fvalue;
  }

  function MinInt(a: int, b: int): int {
    if b < a then b else a
  }

  /** The length of the history of medians. */
  function MedianWindow(niter: nat, dim: nat, lambda: nat): int
    requires lambda > 0
  {
    Ceil(0.2 * niter as real + 120.0 + (30 * dim) as real / lambda as real)
  }

  /** The window starts beyond 120 and grows by one every five generations. */
  lemma MedianWindowGrows(niter: nat, dim: nat, lambda: nat)
    requires lambda > 0
    ensures 120 <= MedianWindow(niter, dim, lambda) <= MedianWindow(niter + 1, dim, lambda)
    ensures MedianWindow(niter + 5, dim, lambda) == MedianWindow(niter, dim, lambda) + 1
    ensures MedianWindow(0, dim, lambda) == 120 + CeilQuotient(30 * dim, lambda)
  {
    var q := (30 * dim) as real / lambda as real;
    QuotientPositive((30 * dim) as real, lambda as real);
    assert 0.2 * (niter + 5) as real == 0.2 * niter as real + 1.0;
    CeilOfQuotient(30 * dim, lambda, CeilQuotient(30 * dim, lambda));
  }

  /** The integer quotient, rounded up. */
  function CeilQuotient(a: nat, b: nat): (q: nat)
    requires b > 0
    ensures a <= q * b < a + b
  {
    (a + b - 1) / b
  }

  lemma CeilOfQuotient(a: nat, b: nat, q: nat)
    requires b > 0 && a <= q * b < a + b
    ensures Ceil(a as real / b as real) == q
  {
    var t, d := a as real / b as real, b as real;
    RealProduct(q, b, q * b);
    QuotientRange(a as real, d, t, q as real, (q * b) as real);
  }

  lemma RealProduct(q: nat, b: nat, p: nat)
    requires p == q * b
    ensures p as real == q as real * b as real
  {
  }

  lemma QuotientRange(a: real, d: real, t: real, q: real, p: real)
    requires d > 0.0 && t == a / d && p == q * d && a <= p < a + d
    ensures q - 1.0 < t <= q
  {
    assert t * d == a;
    BelowFactor(t, q, d);
    BelowFactor(q - 1.0, t, d);
  }

  lemma BelowFactor(x: real, y: real, d: real)
    requires d > 0.0
    ensures (x * d <= y * d ==> x <= y) && (x * d < y * d ==> x < y)
  {
    ProductSign(x - y, d, (x - y) * d);
  }

  /** In whole numbers: the candidate two past the best quarter. */
  lemma KthBestIs(lambda: nat)
    requires lambda >= 2
    ensures KthBest(lambda) == MinInt(lambda - 1, lambda / 4 + 2)
  {
    var q := lambda / 4;
    assert 4 * q <= lambda < 4 * q + 4;
    var t := 0.1 + lambda as real / 4.0;
    assert q as real < t <= (q + 1) as real;
    assert Ceil(t) == q + 1;
  }

  /** The default length is ten more than the quotient of 30 dim by the population. */
  lemma HistoryLengthIs(maxHistory: int, dim: nat, lambda: nat)
    requires lambda > 0
    ensures var n := HistoryLength(maxHistory, dim, lambda);
            if maxHistory > 0 then n == maxHistory
            else n >= 10 && (n - 10) * lambda <= 30 * dim < (n - 9) * lambda
  {
    var q := 30 * dim / lambda;
    assert 30 * dim == q * lambda + 30 * dim % lambda;
  }

  /** Which candidate the k-th history records: about the best quarter, never past the last one. */
  function KthBest(lambda: nat): (k: nat)
    requires lambda >= 2
    ensures k < lambda
  {
    MinInt(lambda - 1, 1 + Ceil(0.1 + lambda as real / 4.0))
  }

  /** How long the histories get. */
  function HistoryLength(maxHistory: int, dim: nat, lambda: nat): (n: nat)
    requires lambda > 0
    ensures n >= 1
  {
    if maxHistory > 0 then maxHistory else 10 + 30 * dim / lambda
  }

  // ----- the program

  /** The evaluation and bookkeeping side of a strategy. */
  class EsoStrategy {
    const func: Vec -> real
    const dim: nat
    var flags: Flags
    var restartElitist: bool
    var candidates: seq<Candidate>
    var initial: Option<Candidate>
    var seen: Option<Candidate>
    var seenIter: nat
    var worst: Option<Candidate>
    var bestHist: seq<Candidate>
    var kBestHist: seq<Candidate>
    var bfvalues: seq<real>
    var medians: seq<real>
    var kcand: nat
    var maxHist: nat
    var niter: nat
    var nevals: nat
    ghost var best: seq<real>

    /** The histories move in step, within their bounds, and never put the best above the k-th best. */
    ghost predicate Histories()
      reads `bestHist, `kBestHist, `bfvalues, `maxHist
    {
      && |bestHist| == |kBestHist| <= maxHist && |bfvalues| <= 20
      && forall i :: 0 <= i < |bestHist| ==> bestHist[i].fvalue <= kBestHist[i].fvalue
    }

    ghost predicate Valid()
      reads this
    {
      && |candidates| >= 2 && kcand < |candidates| && maxHist >= 1 && Histories()
      && |best| == niter && (niter > 0 ==> seen.Some? && bestHist != [])
      && (niter > 0 ==> bestHist[|bestHist| - 1].fvalue == best[niter - 1])
    }

    /** The run as the specification sees it. */
    ghost function View(): Search
      reads this
    {
      Search(seen, niter, best)
    }

    /** The value is not above that of the initial candidate in the initial modes, and not above the best
        seen otherwise. */
    static predicate NotAbove(flags: Flags, initial: Option<Candidate>, seen: Option<Candidate>, value: real) {
      if flags.onRestart || flags.initialElitist then initial.Some? ==> value <= initial.value.fvalue
      else seen.Some? ==> value <= seen.value.fvalue
    }

    /** Whether the evaluation compares with a reference. */
    predicate Active()
      reads this
    {
      niter > 0 && (flags.elitist || flags.initialElitist || (restartElitist && flags.onRestart))
    }

    /** When a mode compares: the first two from the second generation on, the third only after a restart, and
        mode 0 never, unless the restart flag was on. */
    lemma ActiveModes(f: Flags, mode: int)
      requires 0 <= mode <= 3 && flags == SetElitism(f, mode) && (mode == 0 ==> !f.onRestart)
      ensures Active() <==> niter > 0 && (mode == 1 || mode == 2 || (mode == 3 && restartElitist))
    {
    }

    /** The reference: the initial candidate in the initial modes, otherwise the best seen. */
    function Reference(): Option<Candidate>
      reads this
    {
      if flags.onRestart || flags.initialElitist then initial else seen
    }

    /** A run of lambda candidates. With elitism or the initial value asked for, the mean of the start is
        evaluated first and taken as initial and as best seen. */
    constructor (func: Vec -> real, flags: Flags, lambda: nat, maxHistory: int, mean: Vec, initialValue: bool)
      requires lambda >= 2
      ensures Valid() && niter == 0 && this.flags == flags && this.func == func && |candidates| == lambda
      ensures maxHist == HistoryLength(maxHistory, |mean|, lambda) && kcand == KthBest(lambda)
      ensures if flags.elitist || flags.initialElitist || initialValue
              then seen == initial == Some(Candidate(func(mean), mean, 0, 0)) && nevals == 1
              else seen == initial == None && nevals == 0
    {
      hide KthBest, HistoryLength;
      this.func, this.flags, this.dim, restartElitist := func, flags, |mean|, false;
      var start := flags.initialElitist || flags.elitist || initialValue;
      candidates := seq(lambda, _ => Candidate(0.0, [], 0, 0));
      var i := if start then Some(Candidate(func(mean), mean, 0, 0)) else None;
      initial, seen, worst, seenIter := i, i, None, 0;
      bestHist, kBestHist, bfvalues, medians := [], [], [], [];
      kcand, maxHist := KthBest(lambda), HistoryLength(maxHistory, |mean|, lambda);
      niter, nevals := 0, if start then 1 else 0;
      best := [];
    }

    /** Evaluates the population; the reference is reinjected as the mode demands. */
    method Eval(xs: seq<Vec>)
      requires Valid() && |xs| == |candidates|
      requires Active() ==> Reference().Some?
      modifies `candidates, `nevals
      ensures Valid() && nevals == old(nevals) + |xs|
      ensures candidates == old(Population(Evaluated(xs, candidates)))
    {
      hide Evaluated, CountBelow;
      EvaluateAll(xs);
      if niter > 0 && (flags.elitist || flags.initialElitist || (restartElitist && flags.onRestart)) {
        var ref := if flags.onRestart || flags.initialElitist then initial.value else seen.value;
        var count := CountBetter(ref.fvalue);
        if count < |xs| / 2 {
          candidates := candidates[1 := ref];
        }
      }
      nevals := nevals + |xs|;
    }

    /** Sets point, number and true value of each candidate. */
    method EvaluateAll(xs: seq<Vec>)
      requires |xs| == |candidates|
      modifies `candidates
      ensures candidates == Evaluated(xs, old(candidates))
    {
      ghost var target := Evaluated(xs, candidates);
      var r := 0;
      while r < |xs|
        invariant 0 <= r <= |xs| == |candidates|
        invariant forall j :: 0 <= j < r ==> candidates[j] == target[j]
        invariant forall j :: r <= j < |xs| ==> candidates[j] == old(candidates)[j]
      {
        candidates := candidates[r := candidates[r].(x := xs[r], id := r, fvalue := func(xs[r]))];
        r := r + 1;
      }
      assert candidates == target;
    }

    /** Counts the candidates that are better than a value. */
    method CountBetter(value: real) returns (count: nat)
      ensures count == CountBelow(candidates, value, |candidates|)
    {
      var q := 0;
      count := 0;
      while q < |candidates|
        invariant 0 <= q <= |candidates| && count == CountBelow(candidates, value, q)
      {
        if candidates[q].fvalue < value { count := count + 1; }
        q := q + 1;
      }
    }

    /** The candidates with their points and true values. */
    function Evaluated(xs: seq<Vec>, cs: seq<Candidate>): (r: seq<Candidate>)
      requires |xs| == |cs|
      ensures |r| == |cs|
    {
      seq(|xs|, i requires 0 <= i < |xs| => cs[i].(x := xs[i], id := i, fvalue := func(xs[i])))
    }

    /** Sorts the population and records it. */
    method Tell()
      requires Valid()
      modifies `candidates, `bestHist, `kBestHist, `bfvalues, `medians, `seen, `seenIter, `worst, `best
      ensures candidates == StableSort(old(candidates))
      ensures seen == Seen(old(seen), niter, candidates[0])
      ensures worst == WorstSeen(old(worst), niter, candidates[|candidates| - 1])
      ensures bfvalues == Pushed(old(bfvalues), candidates[0].fvalue, 20)
      ensures medians == Pushed(old(medians), Median(candidates), MedianWindow(niter, dim, |candidates|))
      ensures best == old(best) + [candidates[0].fvalue]
      ensures Histories() && bestHist != [] && bestHist[|bestHist| - 1] == candidates[0]
    {
      candidates := StableSort(candidates);
      StableSortSorted(old(candidates));
      UpdateBestCandidates();
    }

    /** Records the sorted population: histories, best and worst seen. */
    method UpdateBestCandidates()
      requires Valid() && Sorted(candidates)
      modifies `bestHist, `kBestHist, `bfvalues, `medians, `seen, `seenIter, `worst, `best
      ensures bestHist == Pushed(old(bestHist), candidates[0], maxHist)
      ensures kBestHist == Pushed(old(kBestHist), candidates[kcand], maxHist)
      ensures Histories() && bestHist != [] && bestHist[|bestHist| - 1] == candidates[0]
      ensures bfvalues == Pushed(old(bfvalues), candidates[0].fvalue, 20)
      ensures medians == Pushed(old(medians), Median(candidates), MedianWindow(niter, dim, |candidates|))
      ensures seen == Seen(old(seen), niter, candidates[0])
      ensures seenIter == if seen != old(seen) then niter else old(seenIter)
      ensures worst == WorstSeen(old(worst), niter, candidates[|candidates| - 1])
      ensures best == old(best) + [candidates[0].fvalue]
    {
      hide Median, MedianWindow, Pushed, Seen, WorstSeen, Sorted;
      HeadBelow(candidates, kcand);
      PushHistories();
      PushValues();
      UpdateSeen();
      best := best + [candidates[0].fvalue];
    }

    /** Keeps the best and the worst candidate seen. */
    method UpdateSeen()
      requires |candidates| > 0
      modifies `seen, `seenIter, `worst
      ensures seen == Seen(old(seen), niter, candidates[0])
      ensures seenIter == if seen != old(seen) then niter else old(seenIter)
      ensures worst == WorstSeen(old(worst), niter, candidates[|candidates| - 1])
    {
      if (niter == 0 && seen == None) || (seen.Some? && candidates[0].fvalue < seen.value.fvalue) {
        seen, seenIter := Some(candidates[0]), niter;
      }
      var last := candidates[|candidates| - 1];
      if (niter == 0 && worst == None) || (worst.Some? && last.fvalue > worst.value.fvalue) {
        worst := Some(last);
      }
    }

    /** The value histories: the last twenty best values, and a growing window of medians. */
    method PushValues()
      requires |candidates| > 0 && |bfvalues| <= 20
      modifies `bfvalues, `medians
      ensures bfvalues == Pushed(old(bfvalues), candidates[0].fvalue, 20) && |bfvalues| <= 20
      ensures medians == Pushed(old(medians), Median(candidates), MedianWindow(niter, dim, |candidates|))
    {
      bfvalues := bfvalues + [candidates[0].fvalue];
      if |bfvalues| > 20 {
        bfvalues := bfvalues[1..];
      }
      medians := medians + [Median(candidates)];
      if |medians| > MedianWindow(niter, dim, |candidates|) {
        medians := medians[1..];
      }
    }

    /** The two candidate histories move in step. */
    method PushHistories()
      requires |candidates| > kcand && candidates[0].fvalue <= candidates[kcand].fvalue && maxHist >= 1
      requires |bestHist| == |kBestHist| <= maxHist
      requires forall i :: 0 <= i < |bestHist| ==> bestHist[i].fvalue <= kBestHist[i].fvalue
      modifies `bestHist, `kBestHist
      ensures bestHist == Pushed(old(bestHist), candidates[0], maxHist)
      ensures kBestHist == Pushed(old(kBestHist), candidates[kcand], maxHist)
      ensures |bestHist| == |kBestHist| <= maxHist && bestHist != [] && bestHist[|bestHist| - 1] == candidates[0]
      ensures forall i :: 0 <= i < |bestHist| ==> bestHist[i].fvalue <= kBestHist[i].fvalue
    {
      bestHist := bestHist + [candidates[0]];
      kBestHist := kBestHist + [candidates[kcand]];
      if |bestHist| > maxHist {
        bestHist := bestHist[1..];
        kBestHist := kBestHist[1..];
      }
    }

    /** The population after evaluation and reinjection. */
    function Population(evaluated: seq<Candidate>): (r: seq<Candidate>)
      requires |evaluated| >= 2 && (Active() ==> Reference().Some?)
      reads this
      ensures |r| == |evaluated|
    {
      if Active() then Reinject(evaluated, Reference().value) else evaluated
    }

    lemma ReferenceBound(evaluated: seq<Candidate>)
      requires |evaluated| >= 2 && (Active() ==> Reference().Some?)
      ensures var r := StableSort(Population(evaluated));
              r != [] && (Active() ==> NotAbove(flags, initial, seen, r[0].fvalue))
    {
      hide StableSort, Reinject;
      if Active() { BestOfReinjected(evaluated, Reference().value); }
    }

    lemma ModeOne(evaluated: seq<Candidate>)
      requires |evaluated| >= 2 && (Active() ==> Reference().Some?) && (niter > 0 ==> seen.Some?)
      ensures StableSort(Population(evaluated)) != []
      ensures var c := StableSort(Population(evaluated))[0];
              flags == Flags(true, false, false) ==>
                Generation(View(), evaluated) == Search(Seen(seen, niter, c), niter + 1, best + [c.fvalue])
    {
      hide StableSort, Reinject, Seen;
    }

    /** One generation: evaluate, tell, count. In mode 1 it is exactly one generation of the
        specification, so the best values never get worse over a run. */
    method Iterate(xs: seq<Vec>)
      requires Valid() && |xs| == |candidates|
      requires Active() ==> Reference().Some?
      modifies `candidates, `nevals, `niter, `bestHist, `kBestHist, `bfvalues, `medians, `seen, `seenIter, `worst, `best
      ensures Valid()
      ensures niter == old(niter) + 1 && nevals == old(nevals) + |xs| && |candidates| == |xs|
      ensures flags == Flags(true, false, false) ==>
                View() == Generation(old(View()), Evaluated(xs, old(candidates)))
      ensures old(Active()) ==> NotAbove(flags, initial, old(seen), bestHist[|bestHist| - 1].fvalue)
    {
      hide StableSort, CountBelow, Reinject, Sorted, Pushed, Median, MedianWindow, WorstSeen, Evaluated, Histories,
        Seen, NotAbove, Active, Reference, Population, Generation;
      ReferenceBound(Evaluated(xs, candidates));
      ModeOne(Evaluated(xs, candidates));
      Eval(xs);
      Tell();
      niter := niter + 1;
    }
  }
}
