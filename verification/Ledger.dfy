/** Sums of multisets over a sequence: what a collection of entries accounts for. */
module Ledger {

  ghost function Sum<R, M>(rs: seq<R>, f: (nat, R) -> multiset<M>): multiset<M> {
    if rs == [] then multiset{}
    else Sum(rs[..|rs| - 1], f) + f(|rs| - 1, rs[|rs| - 1])
  }

  lemma SumAppend<R, M>(rs: seq<R>, r: R, f: (nat, R) -> multiset<M>)
    ensures Sum(rs + [r], f) == Sum(rs, f) + f(|rs|, r)
  {
    assert (rs + [r])[..|rs|] == rs;
  }

  /** Changing one entry changes the sum by that entry. */
  lemma {:induction false} SumUpdate<R, M>(rs: seq<R>, i: nat, r: R, f: (nat, R) -> multiset<M>)
    requires i < |rs|
    ensures Sum(rs[i := r], f) + f(i, rs[i]) == Sum(rs, f) + f(i, r)
  {
    var n := |rs| - 1;
    if i == n {
      assert rs[i := r][..n] == rs[..n];
    } else {
      assert rs[i := r][..n] == rs[..n][i := r];
      SumUpdate(rs[..n], i, r, f);
      assert rs[i := r][n] == rs[n] && rs[..n][i] == rs[i];
      var a, b, last := Sum(rs[..n][i := r], f), Sum(rs[..n], f), f(n, rs[n]);
      assert a + last + f(i, rs[i]) == (a + f(i, rs[i])) + last;
      assert b + last + f(i, r) == (b + f(i, r)) + last;
    }
  }

  lemma Cancel<M>(a: multiset<M>, b: multiset<M>, c: multiset<M>)
    requires a + c == b + c
    ensures a == b
  {
    forall x
      ensures a[x] == b[x]
    {
      assert (a + c)[x] == a[x] + c[x] && (b + c)[x] == b[x] + c[x];
    }
  }

  lemma SumSame<R, M>(rs: seq<R>, i: nat, r: R, f: (nat, R) -> multiset<M>)
    requires i < |rs| && f(i, rs[i]) == f(i, r)
    ensures Sum(rs[i := r], f) == Sum(rs, f)
  {
    SumUpdate(rs, i, r, f);
    Cancel(Sum(rs[i := r], f), Sum(rs, f), f(i, r));
  }

  lemma SumGains<R, M>(rs: seq<R>, i: nat, r: R, f: (nat, R) -> multiset<M>, m: M)
    requires i < |rs| && f(i, rs[i]) == multiset{} && f(i, r) == multiset{m}
    ensures Sum(rs[i := r], f) == Sum(rs, f) + multiset{m}
  {
    SumUpdate(rs, i, r, f);
  }

  lemma SumLoses<R, M>(rs: seq<R>, i: nat, r: R, f: (nat, R) -> multiset<M>, m: M)
    requires i < |rs| && f(i, rs[i]) == multiset{m} && f(i, r) == multiset{}
    ensures Sum(rs[i := r], f) + multiset{m} == Sum(rs, f)
  {
    SumUpdate(rs, i, r, f);
  }

  lemma SumSwaps<R, M>(rs: seq<R>, i: nat, r: R, f: (nat, R) -> multiset<M>, m: M, m': M)
    requires i < |rs| && f(i, rs[i]) == multiset{m} && f(i, r) == multiset{m'}
    ensures Sum(rs[i := r], f) + multiset{m} == Sum(rs, f) + multiset{m'}
  {
    SumUpdate(rs, i, r, f);
  }

  lemma {:induction false} SumContains<R, M>(rs: seq<R>, i: nat, f: (nat, R) -> multiset<M>)
    requires i < |rs|
    ensures f(i, rs[i]) <= Sum(rs, f)
  {
    var n := |rs| - 1;
    if i < n {
      SumContains(rs[..n], i, f);
    }
  }

  /** Whatever is in the sum comes from some entry. */
  lemma {:induction false} SumSource<R, M>(rs: seq<R>, m: M, f: (nat, R) -> multiset<M>) returns (i: nat)
    requires m in Sum(rs, f)
    ensures i < |rs| && m in f(i, rs[i])
  {
    var n := |rs| - 1;
    if m in f(n, rs[n]) {
      i := n;
    } else {
      i := SumSource(rs[..n], m, f);
    }
  }

  /** If one entry alone can account for `m`, it accounts for all of it. */
  lemma {:induction false} SumOf<R, M>(rs: seq<R>, i: nat, m: M, f: (nat, R) -> multiset<M>)
    requires i < |rs|
    requires forall j :: 0 <= j < |rs| && j != i ==> m !in f(j, rs[j])
    ensures Sum(rs, f)[m] == f(i, rs[i])[m]
  {
    var n := |rs| - 1;
    if i < n {
      SumOf(rs[..n], i, m, f);
    } else if m in Sum(rs[..n], f) {
      var j := SumSource(rs[..n], m, f);
      assert false;
    }
  }

  lemma RemoveAt<T>(q: seq<T>, p: nat)
    requires p < |q|
    ensures multiset(q[..p] + q[p + 1..]) + multiset{q[p]} == multiset(q)
  {
    assert q == q[..p] + [q[p]] + q[p + 1..];
  }

  lemma Singleton<T>(s: seq<T>, e: T)
    requires multiset(s) == multiset{e}
    ensures s == [e]
  {
    assert |s| == |multiset(s)| == 1;
    assert s == [s[0]];
    assert s[0] in multiset(s);
  }

  lemma {:induction false} SumTwo<R, M>(rs: seq<R>, i: nat, j: nat, m: M, f: (nat, R) -> multiset<M>)
    requires i < j < |rs|
    ensures Sum(rs, f)[m] >= f(i, rs[i])[m] + f(j, rs[j])[m]
  {
    var n := |rs| - 1;
    if j < n {
      SumTwo(rs[..n], i, j, m, f);
    } else {
      SumContains(rs[..n], i, f);
    }
  }
}
