/** Shared helpers of the ledger: the error raised by every check, the
    condition check that raises it, the geometric mean and the trade-id
    counter. */
module Utils {
  import opened Wrappers

  /** The module's single exception class, one kind per check that raises it;
      each kind carries the offending value its message reports. */
  datatype Error =
    | DuplicateStock(name: string)
    | UnknownStock(stock: string)
    | InvalidType(tradeType: int)
    | InvalidQuantity(quantity: int)
    | InvalidPrice(price: real)

  /** `assert_true(cond, err)`: raise `err` exactly when `cond` is false. */
  function AssertTrue<E>(cond: bool, err: E): (r: Outcome<E>)
    ensures r.Fail? <==> !cond
    ensures r.Fail? ==> r.error == err
  {
    if cond then Pass else Fail(err)
  }

  // ---------------------------------------------------------------------
  // Geometric mean
  // ---------------------------------------------------------------------

  /** The product of all values, multiplied left to right. */
  function Product(ps: seq<real>): real
    decreases |ps|
  {
    if ps == [] then 1.0 else Product(ps[..|ps| - 1]) * ps[|ps| - 1]
  }

  function Pow(x: real, n: nat): real
    decreases n
  {
    if n == 0 then 1.0 else Pow(x, n - 1) * x
  }

  /** The value `product ** (1 / count)` is kept symbolically: its defining
      property is `IsRoot`. */
  datatype Mean = Mean(product: real, count: nat) {
    /** `r` is a `count`-th root of `product`. */
    predicate IsRoot(r: real) {
      Pow(r, count) == product
    }
  }

  /** What `geometric_mean(ps)` denotes: no value for an empty list, otherwise
      the `|ps|`-th root of the product of the values. */
  function GeometricMeanOf(ps: seq<real>): (r: Option<Mean>)
    ensures r.None? <==> ps == []
    ensures r.Some? ==> r.value.count == |ps| && r.value.product == Product(ps)
  {
    if ps == [] then None else Some(Mean(Product(ps), |ps|))
  }

  /** `geometric_mean`: the product is accumulated by a loop over `ps[1:]`. */
  method GeometricMean(ps: seq<real>) returns (r: Option<Mean>)
    ensures r == GeometricMeanOf(ps)
  {
    if |ps| == 0 {
      return None;
    }
    var x := ps[0];
    assert ps[..1] == [ps[0]];
    for i := 1 to |ps|
      invariant x == Product(ps[..i])
    {
      assert ps[..i + 1][..i] == ps[..i];
      x := x * ps[i];
    }
    assert ps[..|ps|] == ps;
    return Some(Mean(x, |ps|));
  }

  lemma {:induction false} PowNonNegative(x: real, n: nat)
    requires x >= 0.0
    ensures Pow(x, n) >= 0.0
    decreases n
  {
    if n > 0 {
      PowNonNegative(x, n - 1);
    }
  }

  lemma {:induction false} PowStrictlyMonotonic(a: real, b: real, n: nat)
    requires 0.0 <= a < b && n >= 1
    ensures Pow(a, n) < Pow(b, n)
    decreases n
  {
    var pa, pb := Pow(a, n - 1), Pow(b, n - 1);
    assert Pow(a, n) == pa * a && Pow(b, n) == pb * b;
    if n == 1 {
      assert pa == 1.0 && pb == 1.0;
    } else {
      PowStrictlyMonotonic(a, b, n - 1);
      PowNonNegative(a, n - 1);
      ScaleLeft(pa, a, b);
      ScaleRightStrict(pa, pb, b);
    }
  }

  lemma ScaleLeft(c: real, x: real, y: real)
    requires c >= 0.0 && x <= y
    ensures c * x <= c * y
  {
    assert c * y - c * x == c * (y - x);
  }

  lemma ScaleRightStrict(x: real, y: real, c: real)
    requires x < y && c > 0.0
    ensures x * c < y * c
  {
    assert y * c - x * c == (y - x) * c;
  }

  /** A non-empty list has at most one non-negative geometric mean, so `IsRoot`
      pins down the value the source computes for non-negative inputs. */
  lemma RootUnique(m: Mean, a: real, b: real)
    requires m.count >= 1
    requires a >= 0.0 && b >= 0.0 && m.IsRoot(a) && m.IsRoot(b)
    ensures a == b
  {
    if a < b {
      PowStrictlyMonotonic(a, b, m.count);
    } else if b < a {
      PowStrictlyMonotonic(b, a, m.count);
    }
  }

  /** The geometric mean of a single value is that value. */
  lemma SingleValueMean(p: real)
    ensures GeometricMeanOf([p]).Some?
    ensures GeometricMeanOf([p]).value.IsRoot(p)
  {
    assert [p][..0] == [];
    assert Product([p]) == p;
    assert Pow(p, 1) == p;
  }

  lemma {:induction false} ProductNonNegative(ps: seq<real>)
    requires forall i :: 0 <= i < |ps| ==> ps[i] >= 0.0
    ensures Product(ps) >= 0.0
    decreases |ps|
  {
    if ps != [] {
      ProductNonNegative(ps[..|ps| - 1]);
    }
  }

  lemma {:induction false} ProductAppend(a: seq<real>, b: seq<real>)
    ensures Product(a + b) == Product(a) * Product(b)
    decreases |b|
  {
    if b == [] {
      assert a + b == a;
    } else {
      var b' := b[..|b| - 1];
      assert (a + b)[..|a + b| - 1] == a + b';
      ProductAppend(a, b');
    }
  }

  lemma ProductSnoc(ps: seq<real>, x: real)
    ensures Product(ps + [x]) == Product(ps) * x
  {
    assert (ps + [x])[..|ps|] == ps;
  }

  lemma {:induction false} ProductRemove(b: seq<real>, k: nat)
    requires k < |b|
    ensures Product(b) == Product(b[..k] + b[k + 1..]) * b[k]
  {
    var x, left, right := b[k], b[..k], b[k + 1..];
    assert b == (left + [x]) + right;
    ProductAppend(left + [x], right);
    ProductSnoc(left, x);
    ProductAppend(left, right);
    Rearrange(Product(left), x, Product(right));
  }

  lemma Rearrange(p: real, x: real, q: real)
    ensures p * x * q == p * q * x
  {
  }

  /** The product does not depend on the order of the values, so neither
      does the geometric mean. */
  lemma {:induction false} ProductPermutation(a: seq<real>, b: seq<real>)
    requires multiset(a) == multiset(b)
    ensures Product(a) == Product(b)
    decreases |a|
  {
    if a == [] {
      assert |b| == |multiset(b)| == 0;
    } else {
      var k := IndexOfLast(a, b);
      ProductPermutation(a[..|a| - 1], b[..k] + b[k + 1..]);
      ProductRemove(b, k);
    }
  }

  /** Where in a permutation `b` of `a` the last element of `a` sits: removing
      it there leaves a permutation of the rest of `a`. */
  lemma IndexOfLast<T>(a: seq<T>, b: seq<T>) returns (k: nat)
    requires a != [] && multiset(a) == multiset(b)
    ensures k < |b| && b[k] == a[|a| - 1]
    ensures b == b[..k] + [a[|a| - 1]] + b[k + 1..]
    ensures multiset(a[..|a| - 1]) == multiset(b[..k] + b[k + 1..])
  {
    var x, a' := a[|a| - 1], a[..|a| - 1];
    assert a == a' + [x];
    assert multiset(a) == multiset(a') + multiset{x};
    assert x in multiset(b);
    k :| 0 <= k < |b| && b[k] == x;
    var b' := b[..k] + b[k + 1..];
    assert b == b[..k] + [x] + b[k + 1..];
    assert multiset(b) == multiset(b') + multiset{x};
    assert multiset(a') == multiset(a) - multiset{x} == multiset(b) - multiset{x} == multiset(b');
  }

  // ---------------------------------------------------------------------
  // Trade-id counter
  // ---------------------------------------------------------------------

  /** The auto-increment id source, an object instead of module-global state. */
  class Counter {
    var value: nat

    constructor ()
      ensures value == 0
    {
      value := 0;
    }

    /** `auto_increment`: hand out the current value and advance by one. */
    method AutoIncrement() returns (id: nat)
      modifies this
      ensures id == old(value) && value == old(value) + 1
    {
      value := value + 1;
      id := value - 1;
    }

    /** `reset_auto_increment`: start again from zero. */
    method Reset()
      modifies this
      ensures value == 0
    {
      value := 0;
    }
  }

  /** Successive ids are 0, 1, 2, and 0 again after a reset. */
  method CounterSequence() returns (a: nat, b: nat, c: nat, d: nat)
    ensures a == 0 && b == 1 && c == 2 && d == 0
  {
    var counter := new Counter();
    a := counter.AutoIncrement();
    b := counter.AutoIncrement();
    c := counter.AutoIncrement();
    counter.Reset();
    d := counter.AutoIncrement();
  }
}
