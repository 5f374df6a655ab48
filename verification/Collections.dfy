/** Options, sizes and sums over finite sets, and a product, shared by the models. */
module Collections {

  datatype Option<+T> = None | Some(value: T)

  lemma SubsetSize<T>(a: set<T>, b: set<T>)
    requires a <= b
    ensures |a| <= |b|
  {
    assert b == a + (b - a);
  }

  function Below(n: nat): (ids: set<nat>)
    ensures forall i: nat :: i in ids <==> i < n
  {
    if n == 0 then {} else Below(n - 1) + {n - 1}
  }

  lemma {:induction false} BelowSize(n: nat)
    ensures |Below(n)| == n
  {
    if n > 0 {
      BelowSize(n - 1);
    }
  }

  lemma RangeSize(j: nat, m: nat)
    requires j <= m
    ensures |Below(m) - Below(j)| == m - j
  {
    BelowSize(j);
    BelowSize(m);
    assert Below(m) == Below(m) - Below(j) + Below(j);
  }

  ghost function Sum(ids: set<nat>, amount: map<nat, nat>): nat
    requires ids <= amount.Keys
    decreases |ids|
  {
    if ids == {} then 0 else var x :| x in ids; amount[x] + Sum(ids - {x}, amount)
  }

  lemma {:induction false} SumTakeOut(ids: set<nat>, amount: map<nat, nat>, x: nat)
    requires ids <= amount.Keys && x in ids
    ensures Sum(ids, amount) == amount[x] + Sum(ids - {x}, amount)
    decreases |ids|
  {
    var y :| y in ids && Sum(ids, amount) == amount[y] + Sum(ids - {y}, amount);
    if x != y {
      SumTakeOut(ids - {y}, amount, x);
      SumTakeOut(ids - {x}, amount, y);
      assert ids - {y} - {x} == ids - {x} - {y};
    }
  }

  lemma {:induction false} SumSplits(a: set<nat>, b: set<nat>, amount: map<nat, nat>)
    requires a !! b && a + b <= amount.Keys
    ensures Sum(a + b, amount) == Sum(a, amount) + Sum(b, amount)
    decreases |a|
  {
    if a == {} {
      assert a + b == b;
    } else {
      var x :| x in a;
      SumTakeOut(a, amount, x);
      SumTakeOut(a + b, amount, x);
      assert a + b - {x} == (a - {x}) + b;
      SumSplits(a - {x}, b, amount);
    }
  }

  /** Two sums over sets paired one to one, each pair of the same amount. */
  lemma {:induction false} PairedSums(a: set<nat>, b: set<nat>, left: map<nat, nat>, right: map<nat, nat>,
      pair: map<nat, nat>)
    requires a <= left.Keys && b <= right.Keys && b <= pair.Keys
    requires forall y :: y in b ==> pair[y] in a && left[pair[y]] == right[y]
    requires forall y, z :: y in b && z in b && pair[y] == pair[z] ==> y == z
    requires forall x :: x in a ==> exists y :: y in b && pair[y] == x
    ensures Sum(a, left) == Sum(b, right)
    decreases |a|
  {
    if a == {} {
      assert b == {};
    } else {
      var x :| x in a;
      var y :| y in b && pair[y] == x;
      SumTakeOut(a, left, x);
      SumTakeOut(b, right, y);
      PairedSums(a - {x}, b - {y}, left, right, pair);
    }
  }

  lemma {:induction false} SameSums(ids: set<nat>, left: map<nat, nat>, right: map<nat, nat>)
    requires ids <= left.Keys && ids <= right.Keys
    requires forall x :: x in ids ==> left[x] == right[x]
    ensures Sum(ids, left) == Sum(ids, right)
    decreases |ids|
  {
    if ids != {} {
      var x :| x in ids;
      SumTakeOut(ids, left, x);
      SumTakeOut(ids, right, x);
      SameSums(ids - {x}, left, right);
    }
  }

  lemma MulMonotone(a: nat, b: nat, c: nat)
    requires a <= b
    ensures a * c <= b * c
  {
  }
}
