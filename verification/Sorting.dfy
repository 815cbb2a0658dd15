/** Sorting candidates by function value. */
module Sorting {
  import opened Solutions

  predicate Sorted(cs: seq<Candidate>) {
    forall i, j :: 0 <= i < j < |cs| ==> cs[i].fvalue <= cs[j].fvalue
  }

  /** Inserts c before the first candidate that is not better. */
  function Insert(c: Candidate, cs: seq<Candidate>): (r: seq<Candidate>)
    ensures |r| == |cs| + 1 && multiset(r) == multiset{c} + multiset(cs)
  {
    if cs == [] then [c]
    else if c.fvalue <= cs[0].fvalue then
      assert [c] + cs == [c] + cs[..];
      [c] + cs
    else
      assert cs == [cs[0]] + cs[1..];
      [cs[0]] + Insert(c, cs[1..])
  }

  /** The stable sort: equal values keep their order. */
  function StableSort(cs: seq<Candidate>): (r: seq<Candidate>)
    ensures |r| == |cs| && multiset(r) == multiset(cs)
  {
    if cs == [] then []
    else
      assert cs == [cs[0]] + cs[1..];
      Insert(cs[0], StableSort(cs[1..]))
  }

  lemma {:induction false} InsertSorted(c: Candidate, cs: seq<Candidate>)
    requires Sorted(cs)
    ensures Sorted(Insert(c, cs))
  {
    if cs != [] && c.fvalue > cs[0].fvalue {
      var tail := Insert(c, cs[1..]);
      InsertSorted(c, cs[1..]);
      forall k | 0 <= k < |tail| ensures cs[0].fvalue <= tail[k].fvalue {
        InsertMember(c, cs[1..], k);
      }
    }
  }

  lemma InsertMember(c: Candidate, cs: seq<Candidate>, k: nat)
    requires k <= |cs|
    ensures Insert(c, cs)[k] == c || Insert(c, cs)[k] in cs
  {
    var r := Insert(c, cs);
    assert r[k] in multiset(r);
  }

  lemma {:induction false} StableSortSorted(cs: seq<Candidate>)
    ensures Sorted(StableSort(cs))
  {
    if cs != [] {
      StableSortSorted(cs[1..]);
      InsertSorted(cs[0], StableSort(cs[1..]));
    }
  }

  /** Sorting keeps the members. */
  lemma SameMembers(r: seq<Candidate>, cs: seq<Candidate>)
    requires multiset(r) == multiset(cs)
    ensures forall c :: c in r <==> c in cs
  {
    forall c ensures c in r <==> c in cs {
      assert c in r <==> c in multiset(r);
      assert c in cs <==> c in multiset(cs);
    }
  }

  /** The first candidate after sorting has the least value. */
  lemma HeadIsLeast(cs: seq<Candidate>)
    requires cs != []
    ensures StableSort(cs)[0] in cs
    ensures forall i :: 0 <= i < |cs| ==> StableSort(cs)[0].fvalue <= cs[i].fvalue
  {
    var r := StableSort(cs);
    StableSortSorted(cs);
    SameMembers(r, cs);
    assert r[0] in r;
    forall i | 0 <= i < |cs| ensures r[0].fvalue <= cs[i].fvalue {
      assert cs[i] in r;
    }
  }
}
