/** `order by` a list of terms that ends in a key: one order and no other
    (packages/engine/src/query/query-builder.ts:285-328). */
module Ordering {
  import opened Definitions
  import opened Statements

  ghost predicate Orders(order: seq<Term>, key: Key) {
    exists i :: 0 <= i < |order| && order[i].column == key
  }

  /** Two rows ranked both ways round agree on every column of the order. */
  lemma {:induction false} TiesAgree(pg: Postgres, a: Row, b: Row, order: seq<Term>, i: nat)
    requires TotalOrder(pg.le)
    requires TermsLeq(pg, a, b, order) && TermsLeq(pg, b, a, order)
    requires i < |order|
    ensures Cell(a, order[i].column) == Cell(b, order[i].column)
  {
    if i > 0 {
      TiesAgree(pg, a, b, order[1..], i - 1);
    }
  }

  /** Every index is somewhere in a permutation. */
  lemma PermutationsCover(perm: seq<nat>, n: nat, k: nat)
    requires Permutes(perm, n) && k < n
    ensures exists at :: 0 <= at < n && perm[at] == k
  {
    if !exists at :: 0 <= at < n && perm[at] == k {
      var named := set i | 0 <= i < n :: perm[i];
      NamesAreMany(perm, n);
      CountUpTo(n);
      Fewer(named, UpTo(n) - {k});
      assert false;
    }
  }

  lemma Fewer<T>(a: set<T>, b: set<T>)
    requires a <= b
    ensures |a| <= |b|
  {
    assert b == a + (b - a);
  }

  function UpTo(n: nat): set<nat> {
    if n == 0 then {} else UpTo(n - 1) + {n - 1}
  }

  lemma {:induction false} CountUpTo(n: nat)
    ensures |UpTo(n)| == n
    ensures forall i: nat :: i in UpTo(n) <==> i < n
  {
    if n > 0 {
      CountUpTo(n - 1);
    }
  }

  lemma {:induction false} NamesAreMany(perm: seq<nat>, n: nat)
    requires n <= |perm|
    requires forall i, j :: 0 <= i < j < n ==> perm[i] != perm[j]
    ensures |(set i | 0 <= i < n :: perm[i])| == n
  {
    if n > 0 {
      NamesAreMany(perm, n - 1);
      var init := set i | 0 <= i < n - 1 :: perm[i];
      assert (set i | 0 <= i < n :: perm[i]) == init + {perm[n - 1]};
      assert perm[n - 1] !in init;
    }
  }

  /** Ranked by terms that end in a unique key, rows come back in one order:
      what a page boundary needs of two queries (query-builder.ts:295-298). */
  lemma OneArrangement(pg: Postgres, envs: seq<Env>, order: seq<Term>, key: Key, p: seq<nat>, q: seq<nat>)
    requires TotalOrder(pg.le) && Orders(order, key)
    requires forall i, j :: 0 <= i < j < |envs| ==> Cell(envs[i].row, key) != Cell(envs[j].row, key)
    requires Arranges(pg, envs, order, p) && Arranges(pg, envs, order, q)
    ensures p == q
  {
    hide TotalOrder, TermsLeq;
    var n := |envs|;
    if k :| 0 <= k < n && p[k] != q[k] {
      var first := FirstDifference(p, q, k);
      assert p[first] != q[first];
      PermutationsCover(p, n, q[first]);
      PermutationsCover(q, n, p[first]);
      var m :| 0 <= m < n && p[m] == q[first];
      var l :| 0 <= l < n && q[l] == p[first];
      assert first < m && first < l;
      var a, b := envs[p[first]].row, envs[q[first]].row;
      assert TermsLeq(pg, a, envs[p[m]].row, order);
      assert TermsLeq(pg, b, envs[q[l]].row, order);
      var i :| 0 <= i < |order| && order[i].column == key;
      TiesAgree(pg, a, b, order, i);
      assert false;
    }
  }

  lemma {:induction false} FirstDifference(p: seq<nat>, q: seq<nat>, k: nat) returns (first: nat)
    requires k < |p| == |q| && p[k] != q[k]
    ensures first <= k && p[first] != q[first]
    ensures forall i :: 0 <= i < first ==> p[i] == q[i]
  {
    first := k;
    if i :| 0 <= i < k && p[i] != q[i] {
      first := FirstDifference(p, q, i);
    }
  }

  // ------------------------------------------------- there is always an order

  lemma {:induction false} Ranked(pg: Postgres, a: Row, b: Row, order: seq<Term>)
    requires TotalOrder(pg.le)
    ensures TermsLeq(pg, a, b, order) || TermsLeq(pg, b, a, order)
  {
    if order != [] {
      Ranked(pg, a, b, order[1..]);
    }
  }

  lemma {:induction false} RankedThrough(pg: Postgres, a: Row, b: Row, c: Row, order: seq<Term>)
    requires TotalOrder(pg.le)
    requires TermsLeq(pg, a, b, order) && TermsLeq(pg, b, c, order)
    ensures TermsLeq(pg, a, c, order)
  {
    if order != [] {
      var x, y, z := Cell(a, order[0].column), Cell(b, order[0].column), Cell(c, order[0].column);
      if x == y == z {
        RankedThrough(pg, a, b, c, order[1..]);
      } else {
        assert x != z || x == y;
      }
    }
  }

  /** Where one more row goes: after everything it does not come before. */
  lemma {:induction false} Place(pg: Postgres, envs: seq<Env>, order: seq<Term>, perm: seq<nat>, row: Row) returns (at: nat)
    requires TotalOrder(pg.le) && Arranges(pg, envs, order, perm)
    ensures at <= |perm|
    ensures forall i :: 0 <= i < at ==> TermsLeq(pg, envs[perm[i]].row, row, order)
    ensures forall i :: at <= i < |perm| ==> TermsLeq(pg, row, envs[perm[i]].row, order)
  {
    hide TotalOrder, TermsLeq;
    at := 0;
    while at < |perm| && TermsLeq(pg, envs[perm[at]].row, row, order)
      invariant at <= |perm|
      invariant forall i :: 0 <= i < at ==> TermsLeq(pg, envs[perm[i]].row, row, order)
    {
      at := at + 1;
    }
    if at < |perm| {
      Ranked(pg, row, envs[perm[at]].row, order);
      forall i | at <= i < |perm| ensures TermsLeq(pg, row, envs[perm[i]].row, order) {
        if i > at {
          RankedThrough(pg, row, envs[perm[at]].row, envs[perm[i]].row, order);
        }
      }
    }
  }

  lemma {:induction false} SomeArrangement(pg: Postgres, envs: seq<Env>, order: seq<Term>) returns (perm: seq<nat>)
    requires TotalOrder(pg.le)
    ensures Arranges(pg, envs, order, perm)
  {
    hide TotalOrder, TermsLeq;
    if envs == [] {
      perm := [];
    } else {
      var n := |envs| - 1;
      var init, row := envs[..n], envs[n].row;
      var before := SomeArrangement(pg, init, order);
      var at := Place(pg, init, order, before, row);
      perm := before[..at] + [n] + before[at..];
      assert forall i :: 0 <= i < at ==> perm[i] == before[i];
      assert forall i :: at < i <= n ==> perm[i] == before[i - 1];
      forall i, j | 0 <= i < j <= n
        ensures perm[i] != perm[j] && perm[i] <= n && perm[j] <= n
        ensures TermsLeq(pg, envs[perm[i]].row, envs[perm[j]].row, order)
      {
      }
    }
  }
}
