/** How many entries of a finite map satisfy a predicate. */
module Counting {

  function Matching<T>(m: map<nat, T>, p: T -> bool): (r: set<nat>) {
    set i | i in m && p(m[i])
  }

  function Count<T>(m: map<nat, T>, p: T -> bool): (r: nat) {
    |Matching(m, p)|
  }

  function One(b: bool): (r: nat) {
    if b then 1 else 0
  }

  lemma WithOrWithout(s: set<nat>, i: nat)
    ensures |s| == |s - {i}| + One(i in s)
  {
    if i in s {
      assert s == (s - {i}) + {i};
    } else {
      assert s == s - {i};
    }
  }

  lemma OthersUnmoved<T>(m: map<nat, T>, i: nat, x: T, p: T -> bool)
    ensures Matching(m[i := x], p) - {i} == Matching(m, p) - {i}
  {
  }

  lemma CountUpdate<T>(m: map<nat, T>, i: nat, x: T, p: T -> bool)
    ensures Count(m[i := x], p) == Count(m, p) - One(i in m && p(m[i])) + One(p(x))
  {
    var before, now := Matching(m, p), Matching(m[i := x], p);
    OthersUnmoved(m, i, x, p);
    WithOrWithout(before, i);
    WithOrWithout(now, i);
  }

  lemma CountRemove<T>(m: map<nat, T>, i: nat, p: T -> bool)
    ensures Count(m - {i}, p) == Count(m, p) - One(i in m && p(m[i]))
  {
    assert Matching(m - {i}, p) == Matching(m, p) - {i};
    WithOrWithout(Matching(m, p), i);
  }

  lemma CountMember<T>(m: map<nat, T>, i: nat, p: T -> bool)
    requires i in m && p(m[i])
    ensures Count(m, p) > 0
  {
    assert i in Matching(m, p);
  }

  lemma CountWitness<T>(m: map<nat, T>, p: T -> bool) returns (i: nat)
    requires Count(m, p) > 0
    ensures i in m && p(m[i])
  {
    i :| i in Matching(m, p);
  }

  lemma CountAtLeast<T>(m: map<nat, T>, i: nat, p: T -> bool)
    requires i in m
    ensures One(p(m[i])) <= Count(m, p)
  {
    if p(m[i]) { CountMember(m, i, p); }
  }

  /** At most one means one and the same. */
  lemma CountUnique<T>(m: map<nat, T>, i: nat, j: nat, p: T -> bool)
    requires Count(m, p) <= 1 && i in m && j in m && p(m[i]) && p(m[j])
    ensures i == j
  {
    WithOrWithout(Matching(m, p), i);
    assert i == j || j in Matching(m, p) - {i};
  }

  /** A count that one entry accounts for leaves nothing to another. */
  lemma OthersAbsent<T>(m: map<nat, T>, i: nat, j: nat, p: T -> bool)
    requires i in m && j in m && i != j && Count(m, p) == One(p(m[i]))
    ensures !p(m[j])
  {
    if p(m[j]) {
      CountMember(m, j, p);
      CountUnique(m, i, j, p);
      assert false;
    }
  }

  lemma NoneOf<T>(m: map<nat, T>, p: T -> bool, q: T -> bool)
    requires Count(m, p) == 0 && forall i :: i in m && q(m[i]) ==> p(m[i])
    ensures Count(m, q) == 0
  {
    if Count(m, q) > 0 {
      var i := CountWitness(m, q);
      CountMember(m, i, p);
    }
  }
}
