/** Finite sums over the values of a map, the vocabulary of every "the caches agree" statement. */
module MapSum {

  function Get(m: map<nat, int>, k: nat): int {
    if k in m then m[k] else 0
  }

  function Self(x: int): int {
    x
  }

  ghost function Sum<T>(m: map<nat, T>, f: T -> int): int
    decreases |m|
  {
    if m == map[] then 0
    else
      var k :| k in m;
      assert (m - {k}).Keys == m.Keys - {k};
      f(m[k]) + Sum(m - {k}, f)
  }

  /** The sum does not depend on which key is taken out first. */
  lemma {:induction false} SumSplit<T>(m: map<nat, T>, k: nat, f: T -> int)
    requires k in m
    ensures Sum(m, f) == f(m[k]) + Sum(m - {k}, f)
    decreases |m|
  {
    var j :| j in m && Sum(m, f) == f(m[j]) + Sum(m - {j}, f);
    if j != k {
      assert (m - {j}).Keys == m.Keys - {j};
      assert (m - {k}).Keys == m.Keys - {k};
      SumSplit(m - {j}, k, f);
      SumSplit(m - {k}, j, f);
      assert (m - {j}) - {k} == (m - {k}) - {j};
    }
  }

  lemma SumSet<T>(m: map<nat, T>, k: nat, v: T, f: T -> int)
    ensures Sum(m[k := v], f) == Sum(m, f) + f(v) - (if k in m then f(m[k]) else 0)
  {
    SumSplit(m[k := v], k, f);
    assert m[k := v] - {k} == m - {k};
    if k in m {
      SumSplit(m, k, f);
    } else {
      assert m - {k} == m;
    }
  }

  lemma SumErase<T>(m: map<nat, T>, k: nat, f: T -> int)
    ensures Sum(m - {k}, f) == Sum(m, f) - (if k in m then f(m[k]) else 0)
  {
    if k in m {
      SumSplit(m, k, f);
    } else {
      assert m - {k} == m;
    }
  }

  lemma {:induction false} SumAtLeast(m: map<nat, int>, k: nat)
    requires forall j :: j in m ==> m[j] >= 0
    ensures Sum(m, Self) >= Get(m, k)
    ensures Sum(m, Self) >= 0
    decreases |m|
  {
    if m != map[] {
      var j :| j in m && Sum(m, Self) == m[j] + Sum(m - {j}, Self);
      assert (m - {j}).Keys == m.Keys - {j};
      SumAtLeast(m - {j}, k);
    }
  }

  /** Writes a count the way the source does: a count below one erases its entry. */
  function Put(m: map<nat, int>, k: nat, v: int): map<nat, int> {
    if v < 1 then m - {k} else m[k := v]
  }

  lemma SumPut(m: map<nat, int>, k: nat, v: int)
    requires v >= 0
    ensures Sum(Put(m, k, v), Self) == Sum(m, Self) + v - Get(m, k)
  {
    if v < 1 {
      SumErase(m, k, Self);
    } else {
      SumSet(m, k, v, Self);
    }
  }

  /** The least element of a set, where an ordered map's iteration starts. */
  ghost function Least(s: set<nat>): (m: nat)
    requires s != {}
    ensures m in s && forall x :: x in s ==> m <= x
    decreases |s|
  {
    var k :| k in s;
    var rest := s - {k};
    assert forall x :: x in s ==> x == k || x in rest;
    if rest == {} then k
    else
      var m := Least(rest);
      if k <= m then k else m
  }
}
