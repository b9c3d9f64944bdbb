/**
 Generic sequence folds the feedback analysis is built from: filtering a log, mapping a
 function over it, multiplying factors and counting. Each is defined from the back of the
 sequence, the way the analysis loops consume their input one element at a time.
 */
module SeqOps {

  /** The elements of `xs` that satisfy `p`, in order. */
  function Filter<T>(p: T -> bool, xs: seq<T>): (ys: seq<T>)
    ensures |ys| <= |xs|
  {
    if xs == [] then []
    else Filter(p, xs[..|xs| - 1]) + (if p(xs[|xs| - 1]) then [xs[|xs| - 1]] else [])
  }

  /** `f` applied to every element of `xs`, in order. */
  function Map<T, U>(f: T -> U, xs: seq<T>): (ys: seq<U>)
    ensures |ys| == |xs|
  {
    if xs == [] then [] else Map(f, xs[..|xs| - 1]) + [f(xs[|xs| - 1])]
  }

  /** The product of `f` over the elements of `xs`. */
  function Prod<T>(f: T -> real, xs: seq<T>): real {
    if xs == [] then 1.0 else Prod(f, xs[..|xs| - 1]) * f(xs[|xs| - 1])
  }

  /** How many elements of `xs` satisfy `p`. */
  function CountIf<T>(p: T -> bool, xs: seq<T>): nat {
    if xs == [] then 0 else CountIf(p, xs[..|xs| - 1]) + (if p(xs[|xs| - 1]) then 1 else 0)
  }

  /** `b` raised to the natural power `k`. */
  function Pow(b: real, k: nat): real {
    if k == 0 then 1.0 else b * Pow(b, k - 1)
  }

  /** Every entry `i` of a table multiplied by the weight `w(j, i)` job `j` gives it. */
  function Scale<J>(m: seq<real>, w: (J, nat) -> real, j: J): (m': seq<real>)
    ensures |m'| == |m|
  {
    seq(|m|, i requires 0 <= i < |m| => m[i] * w(j, i))
  }

  /** The jobs applied to a table one after the other, in order. */
  function ScaleAll<J>(m: seq<real>, w: (J, nat) -> real, jobs: seq<J>): (m': seq<real>)
    ensures |m'| == |m|
  {
    if jobs == [] then m else Scale(ScaleAll(m, w, jobs[..|jobs| - 1]), w, jobs[|jobs| - 1])
  }

  /** The weights the jobs give entry `i`. */
  function Column<J>(w: (J, nat) -> real, i: nat): J -> real {
    (j: J) => w(j, i)
  }

  // ---------------------------------------------------------------------------
  // Filter and Map

  /** `Filter` keeps exactly the occurrences of the elements that satisfy `p`. */
  lemma {:induction false} FilterMultiplicity<T>(p: T -> bool, xs: seq<T>, x: T)
    ensures multiset(Filter(p, xs))[x] == if p(x) then multiset(xs)[x] else 0
  {
    if xs != [] {
      var front, y := xs[..|xs| - 1], xs[|xs| - 1];
      FilterMultiplicity(p, front, x);
      assert xs == front + [y];
    }
  }

  lemma {:induction false} FilterAppend<T>(p: T -> bool, a: seq<T>, b: seq<T>)
    ensures Filter(p, a + b) == Filter(p, a) + Filter(p, b)
    decreases |b|
  {
    if b == [] {
      assert a + b == a;
    } else {
      var front := b[..|b| - 1];
      assert (a + b)[..|a + b| - 1] == a + front;
      FilterAppend(p, a, front);
    }
  }

  lemma {:induction false} MapAppend<T, U>(f: T -> U, a: seq<T>, b: seq<T>)
    ensures Map(f, a + b) == Map(f, a) + Map(f, b)
    decreases |b|
  {
    if b == [] {
      assert a + b == a;
    } else {
      var front := b[..|b| - 1];
      assert (a + b)[..|a + b| - 1] == a + front;
      MapAppend(f, a, front);
    }
  }

  /** Filtering two orderings of the same elements yields two orderings of the same elements. */
  lemma {:induction false} FilterPermutation<T>(p: T -> bool, a: seq<T>, b: seq<T>)
    requires multiset(a) == multiset(b)
    ensures multiset(Filter(p, a)) == multiset(Filter(p, b))
    decreases |a|
  {
    if a == [] {
      assert b == [];
    } else {
      var x, front := a[|a| - 1], a[..|a| - 1];
      var j := PermutationSplit(a, b);
      var left, right := b[..j], b[j + 1..];
      assert b == left + [x] + right;
      FilterPermutation(p, front, left + right);
      FilterAppend(p, left + [x], right);
      FilterAppend(p, left, [x]);
      FilterAppend(p, left, right);
      assert [x][..0] == [];
    }
  }

  /** The last element of `a` sits somewhere in any reordering `b` of `a`, and removing it
      from both leaves two reorderings of each other. */
  lemma PermutationSplit<T>(a: seq<T>, b: seq<T>) returns (j: nat)
    requires a != [] && multiset(a) == multiset(b)
    ensures j < |b| && b[j] == a[|a| - 1]
    ensures multiset(a[..|a| - 1]) == multiset(b[..j] + b[j + 1..])
  {
    var x, front := a[|a| - 1], a[..|a| - 1];
    assert a == front + [x];
    assert x in multiset(b);
    j :| 0 <= j < |b| && b[j] == x;
    var left, right := b[..j], b[j + 1..];
    assert b == left + [x] + right;
    assert multiset(b) == multiset(left) + multiset{x} + multiset(right);
    assert multiset(a) == multiset(front) + multiset{x};
    assert multiset(left + right) == multiset(left) + multiset(right);
    assert multiset(front) == multiset(a) - multiset{x};
    assert multiset(left + right) == multiset(b) - multiset{x};
  }

  /** Mapping two orderings of the same elements yields two orderings of the same images. */
  lemma {:induction false} MapPermutation<T, U>(f: T -> U, a: seq<T>, b: seq<T>)
    requires multiset(a) == multiset(b)
    ensures multiset(Map(f, a)) == multiset(Map(f, b))
    decreases |a|
  {
    if a == [] {
      assert b == [];
    } else {
      var x, front := a[|a| - 1], a[..|a| - 1];
      var j := PermutationSplit(a, b);
      var left, right := b[..j], b[j + 1..];
      assert b == left + [x] + right;
      MapPermutation(f, front, left + right);
      MapAppend(f, left + [x], right);
      MapAppend(f, left, [x]);
      MapAppend(f, left, right);
      assert [x][..0] == [];
    }
  }

  /** An element `p` rejects leaves the filtered sequence as if it were not there. */
  lemma FilterSkip<T>(p: T -> bool, a: seq<T>, x: T, b: seq<T>)
    requires !p(x)
    ensures Filter(p, a + [x] + b) == Filter(p, a + b)
  {
    assert [x][..0] == [];
    FilterAppend(p, a + [x], b);
    FilterAppend(p, a, [x]);
    FilterAppend(p, a, b);
  }

  /** An element `p` accepts stays where it is. */
  lemma FilterKeep<T>(p: T -> bool, a: seq<T>, x: T, b: seq<T>)
    requires p(x)
    ensures Filter(p, a + [x] + b) == Filter(p, a) + [x] + Filter(p, b)
  {
    assert [x][..0] == [];
    FilterAppend(p, a + [x], b);
    FilterAppend(p, a, [x]);
  }

  /** Mapping distributes over a split around one element. */
  lemma MapSplit<T, U>(f: T -> U, a: seq<T>, x: T, b: seq<T>)
    ensures Map(f, a + [x] + b) == Map(f, a) + [f(x)] + Map(f, b)
  {
    assert [x][..0] == [];
    MapAppend(f, a + [x], b);
    MapAppend(f, a, [x]);
  }

  /** Filtering, mapping and filtering again drops an element that either filter rejects
      wherever it stands. */
  lemma PipelineSkip<T, U>(p: T -> bool, f: T -> U, q: U -> bool, a: seq<T>, x: T, b: seq<T>)
    requires !p(x) || !q(f(x))
    ensures Filter(q, Map(f, Filter(p, a + [x] + b))) == Filter(q, Map(f, Filter(p, a + b)))
  {
    if !p(x) {
      FilterSkip(p, a, x, b);
    } else {
      var fa, fb := Filter(p, a), Filter(p, b);
      FilterKeep(p, a, x, b);
      FilterAppend(p, a, b);
      MapSplit(f, fa, x, fb);
      MapAppend(f, fa, fb);
      FilterSkip(q, Map(f, fa), f(x), Map(f, fb));
    }
  }

  /** Replacing an element by one both stages treat the same way changes nothing. */
  lemma PipelineReplace<T, U>(p: T -> bool, f: T -> U, q: U -> bool, a: seq<T>, x: T, y: T, b: seq<T>)
    requires p(x) == p(y) && f(x) == f(y)
    ensures Filter(q, Map(f, Filter(p, a + [x] + b))) == Filter(q, Map(f, Filter(p, a + [y] + b)))
  {
    if !p(x) {
      FilterSkip(p, a, x, b);
      FilterSkip(p, a, y, b);
    } else {
      FilterKeep(p, a, x, b);
      FilterKeep(p, a, y, b);
      MapSplit(f, Filter(p, a), x, Filter(p, b));
      MapSplit(f, Filter(p, a), y, Filter(p, b));
    }
  }

  /** Extending a log by one element: mapping and filtering the longer prefix adds at most
      one job, so the jobs applied grow by `f(xs[k])` or stay as they were. */
  lemma ScaleAllPrefixStep<T, J>(m: seq<real>, w: (J, nat) -> real, f: T -> J, q: J -> bool, xs: seq<T>, k: nat)
    requires k < |xs|
    ensures ScaleAll(m, w, Filter(q, Map(f, xs[..k + 1])))
            == if q(f(xs[k])) then Scale(ScaleAll(m, w, Filter(q, Map(f, xs[..k]))), w, f(xs[k]))
               else ScaleAll(m, w, Filter(q, Map(f, xs[..k])))
  {
    assert xs[..k + 1][..k] == xs[..k];
    var ys := Map(f, xs[..k + 1]);
    assert ys[..|ys| - 1] == Map(f, xs[..k]);
    if q(f(xs[k])) {
      var zs := Filter(q, ys);
      assert zs == Filter(q, Map(f, xs[..k])) + [f(xs[k])];
      assert zs[..|zs| - 1] == Filter(q, Map(f, xs[..k]));
      assert zs[|zs| - 1] == f(xs[k]);
      assert ScaleAll(m, w, zs) == Scale(ScaleAll(m, w, zs[..|zs| - 1]), w, zs[|zs| - 1]);
    } else {
      assert Filter(q, ys) == Filter(q, Map(f, xs[..k]));
    }
  }

  /** Filtering, mapping and filtering again a single element. */
  lemma PipelineSingle<T, U>(p: T -> bool, f: T -> U, q: U -> bool, x: T)
    ensures Filter(q, Map(f, Filter(p, [x]))) == if p(x) && q(f(x)) then [f(x)] else []
  {
    assert [x][..0] == [];
    assert [f(x)][..0] == [];
  }

  /** Filtering, mapping and filtering again two orderings of the same elements yields two
      orderings of the same elements. */
  lemma PipelinePermutation<T, U>(p: T -> bool, f: T -> U, q: U -> bool, a: seq<T>, b: seq<T>)
    requires multiset(a) == multiset(b)
    ensures multiset(Filter(q, Map(f, Filter(p, a)))) == multiset(Filter(q, Map(f, Filter(p, b))))
  {
    FilterPermutation(p, a, b);
    MapPermutation(f, Filter(p, a), Filter(p, b));
    FilterPermutation(q, Map(f, Filter(p, a)), Map(f, Filter(p, b)));
  }

  // ---------------------------------------------------------------------------
  // Prod

  /** Splitting a sequence splits the product. */
  lemma {:induction false} ProdAppend<T>(f: T -> real, a: seq<T>, b: seq<T>)
    ensures Prod(f, a + b) == Prod(f, a) * Prod(f, b)
    decreases |b|
  {
    if b == [] {
      assert a + b == a;
    } else {
      var front := b[..|b| - 1];
      assert (a + b)[..|a + b| - 1] == a + front;
      ProdAppend(f, a, front);
    }
  }

  /** Moving one element to the end does not change the product. */
  lemma ProdMoveToEnd<T>(f: T -> real, left: seq<T>, x: T, right: seq<T>)
    ensures Prod(f, left + [x] + right) == Prod(f, left + right) * f(x)
  {
    ProdAppend(f, left + [x], right);
    ProdAppend(f, left, [x]);
    ProdAppend(f, left, right);
    assert [x][..0] == [];
    var pl, pr, px := Prod(f, left), Prod(f, right), f(x);
    assert (pl * px) * pr == (pl * pr) * px;
  }

  /** Reordering a sequence does not change the product. */
  lemma {:induction false} ProdPermutation<T>(f: T -> real, a: seq<T>, b: seq<T>)
    requires multiset(a) == multiset(b)
    ensures Prod(f, a) == Prod(f, b)
    decreases |a|
  {
    if a == [] {
      assert b == [];
    } else {
      var x, front := a[|a| - 1], a[..|a| - 1];
      var j := PermutationSplit(a, b);
      var left, right := b[..j], b[j + 1..];
      assert b == left + [x] + right;
      ProdPermutation(f, front, left + right);
      ProdMoveToEnd(f, left, x, right);
    }
  }

  /** Multiplication of reals is associative. */
  lemma MulAssoc(a: real, b: real, c: real)
    ensures (a * b) * c == a * (b * c)
  {
  }

  // ---------------------------------------------------------------------------
  // ScaleAll

  /** Applying jobs one after the other multiplies each entry by the product of the
      weights they give it. */
  lemma {:induction false} ScaleAllIsProduct<J>(m: seq<real>, w: (J, nat) -> real, jobs: seq<J>, i: nat)
    requires i < |m|
    ensures ScaleAll(m, w, jobs)[i] == m[i] * Prod(Column(w, i), jobs)
  {
    if jobs != [] {
      var front, j := jobs[..|jobs| - 1], jobs[|jobs| - 1];
      ScaleAllIsProduct(m, w, front, i);
      var p := Prod(Column(w, i), front);
      assert ScaleAll(m, w, jobs)[i] == ScaleAll(m, w, front)[i] * w(j, i);
      assert Prod(Column(w, i), jobs) == p * w(j, i);
      MulAssoc(m[i], p, w(j, i));
    }
  }

  /** The order in which the jobs are applied does not matter. */
  lemma ScaleAllPermutation<J>(m: seq<real>, w: (J, nat) -> real, a: seq<J>, b: seq<J>)
    requires multiset(a) == multiset(b)
    ensures ScaleAll(m, w, a) == ScaleAll(m, w, b)
  {
    forall i | 0 <= i < |m|
      ensures ScaleAll(m, w, a)[i] == ScaleAll(m, w, b)[i]
    {
      ScaleAllIsProduct(m, w, a, i);
      ScaleAllIsProduct(m, w, b, i);
      ProdPermutation(Column(w, i), a, b);
    }
  }

  /** A factor of 1 leaves a product unchanged. */
  lemma NeutralStep(q: real, fx: real, r: real)
    requires fx == 1.0 && r == q * fx
    ensures r == q
  {
  }

  /** Monotonicity of a product with one more factor: `q` in `[l, ...)` and `fx` in
      `[lo, ...)` give `r = q * fx` at least `pw = lo * l`, for positive bounds. */
  lemma FloorStep(lo: real, l: real, q: real, fx: real, pw: real, r: real)
    requires 0.0 < lo <= fx && 0.0 < l <= q
    requires pw == lo * l && r == q * fx
    ensures 0.0 < pw <= r
  {
    assert lo * l <= fx * l <= fx * q;
  }

  /** Monotonicity the other way: `q` in `(0, u]` and `fx` in `(0, hi]` give `r = q * fx`
      in `(0, pw]`, where `pw = hi * u`. */
  lemma CeilingStep(hi: real, u: real, q: real, fx: real, pw: real, r: real)
    requires 0.0 < fx <= hi && 0.0 < q <= u
    requires pw == hi * u && r == q * fx
    ensures 0.0 < r <= pw
  {
    assert q * fx <= u * fx <= u * hi;
  }

  /** A factor below 1 takes a product in `(0, 1]` to one in `(0, 1)`. */
  lemma BelowOneStep(q: real, fx: real, r: real)
    requires 0.0 < q <= 1.0 && 0.0 < fx < 1.0 && r == q * fx
    ensures 0.0 < r < 1.0
  {
    assert fx * q < 1.0 * q;
  }

  /** A factor above 1 takes a product at least 1 to one above 1. */
  lemma AboveOneStep(q: real, fx: real, r: real)
    requires 1.0 <= q && 1.0 < fx && r == q * fx
    ensures 1.0 < r
  {
    assert 1.0 * q < fx * q;
  }

  lemma {:induction false} PowBounds(b: real, k: nat)
    requires 0.0 < b
    ensures 0.0 < Pow(b, k)
    ensures b <= 1.0 ==> Pow(b, k) <= 1.0
    ensures 1.0 <= b ==> 1.0 <= Pow(b, k)
  {
    if k > 0 {
      PowBounds(b, k - 1);
      var p := Pow(b, k - 1);
      if b <= 1.0 {
        assert b * p <= 1.0 * p;
      }
      if 1.0 <= b {
        assert 1.0 * p <= b * p;
      }
    }
  }

  /** Factors in `(0, 1)` where `p` holds and 1 elsewhere multiply to a value in `(0, 1]`,
      strictly less than 1 as soon as one element satisfies `p`. */
  lemma {:induction false} ProdOfPenalties<T>(f: T -> real, p: T -> bool, xs: seq<T>)
    requires forall x :: p(x) ==> 0.0 < f(x) < 1.0
    requires forall x :: !p(x) ==> f(x) == 1.0
    ensures 0.0 < Prod(f, xs) <= 1.0
    ensures CountIf(p, xs) > 0 ==> Prod(f, xs) < 1.0
  {
    if xs != [] {
      ProdOfPenalties(f, p, xs[..|xs| - 1]);
      if p(xs[|xs| - 1]) {
        BelowOneStep(Prod(f, xs[..|xs| - 1]), f(xs[|xs| - 1]), Prod(f, xs));
      } else {
        NeutralStep(Prod(f, xs[..|xs| - 1]), f(xs[|xs| - 1]), Prod(f, xs));
      }
    }
  }

  /** Factors at least `lo > 0` where `p` holds and 1 elsewhere multiply to at least
      `lo^(number of elements satisfying p)`. */
  lemma {:induction false} ProdFloor<T>(f: T -> real, p: T -> bool, lo: real, xs: seq<T>)
    requires 0.0 < lo
    requires forall x :: p(x) ==> lo <= f(x)
    requires forall x :: !p(x) ==> f(x) == 1.0
    ensures 0.0 < Pow(lo, CountIf(p, xs)) <= Prod(f, xs)
  {
    if xs != [] {
      ProdFloor(f, p, lo, xs[..|xs| - 1]);
      if p(xs[|xs| - 1]) {
        FloorStep(lo, Pow(lo, CountIf(p, xs[..|xs| - 1])), Prod(f, xs[..|xs| - 1]), f(xs[|xs| - 1]),
                  Pow(lo, CountIf(p, xs)), Prod(f, xs));
      } else {
        NeutralStep(Prod(f, xs[..|xs| - 1]), f(xs[|xs| - 1]), Prod(f, xs));
      }
    }
  }

  /** Factors above 1 where `p` holds and 1 elsewhere multiply to at least 1, strictly more
      than 1 as soon as one element satisfies `p`. */
  lemma {:induction false} ProdOfBoosts<T>(f: T -> real, p: T -> bool, xs: seq<T>)
    requires forall x :: p(x) ==> 1.0 < f(x)
    requires forall x :: !p(x) ==> f(x) == 1.0
    ensures 1.0 <= Prod(f, xs)
    ensures CountIf(p, xs) > 0 ==> 1.0 < Prod(f, xs)
  {
    if xs != [] {
      ProdOfBoosts(f, p, xs[..|xs| - 1]);
      if p(xs[|xs| - 1]) {
        AboveOneStep(Prod(f, xs[..|xs| - 1]), f(xs[|xs| - 1]), Prod(f, xs));
      } else {
        NeutralStep(Prod(f, xs[..|xs| - 1]), f(xs[|xs| - 1]), Prod(f, xs));
      }
    }
  }

  /** Factors in `(0, hi]` where `p` holds and 1 elsewhere, with `hi >= 1`, multiply to at
      most `hi^(number of elements satisfying p)`. */
  lemma {:induction false} ProdCeiling<T>(f: T -> real, p: T -> bool, hi: real, xs: seq<T>)
    requires 1.0 <= hi
    requires forall x :: p(x) ==> 0.0 < f(x) <= hi
    requires forall x :: !p(x) ==> f(x) == 1.0
    ensures 0.0 < Prod(f, xs) <= Pow(hi, CountIf(p, xs))
  {
    if xs != [] {
      ProdCeiling(f, p, hi, xs[..|xs| - 1]);
      if p(xs[|xs| - 1]) {
        CeilingStep(hi, Pow(hi, CountIf(p, xs[..|xs| - 1])), Prod(f, xs[..|xs| - 1]), f(xs[|xs| - 1]),
                    Pow(hi, CountIf(p, xs)), Prod(f, xs));
      } else {
        NeutralStep(Prod(f, xs[..|xs| - 1]), f(xs[|xs| - 1]), Prod(f, xs));
      }
    }
  }

  // ---------------------------------------------------------------------------
  // Two rounds of jobs on a table of ones

  /** An entry that starts at 1 ends as the product `p1` of the weights of the first round
      of jobs times the product `p2` of the weights of the second round. */
  lemma TwoRoundsProduct<J>(m: seq<real>, w1: (J, nat) -> real, a1: seq<J>, w2: (J, nat) -> real, a2: seq<J>, i: nat)
    returns (p1: real, p2: real)
    requires i < |m| && m[i] == 1.0
    ensures p1 == Prod(Column(w1, i), a1) && p2 == Prod(Column(w2, i), a2)
    ensures ScaleAll(ScaleAll(m, w1, a1), w2, a2)[i] == p1 * p2
  {
    p1, p2 := Prod(Column(w1, i), a1), Prod(Column(w2, i), a2);
    ScaleAllIsProduct(m, w1, a1, i);
    ScaleAllIsProduct(ScaleAll(m, w1, a1), w2, a2, i);
    TwoSteps(m[i], p1, ScaleAll(m, w1, a1)[i], p2, ScaleAll(ScaleAll(m, w1, a1), w2, a2)[i]);
  }

  /** Starting from 1, scaling by `p1` and then by `p2` gives `p1 * p2`. */
  lemma TwoSteps(one: real, p1: real, mid: real, p2: real, r: real)
    requires one == 1.0 && mid == one * p1 && r == mid * p2
    ensures r == p1 * p2
  {
  }

  /** An entry that starts at 1, goes through a round of penalties in `[lo, 1)` and then a
      round of boosts in `(1, hi]` (weight 1 for the jobs that fail `p`) ends between
      `lo^k1` and `hi^k2`, where `k1` and `k2` count the jobs of each round that satisfy `p`;
      below 1 when only penalties apply, above 1 when only boosts do, 1 when neither does. */
  lemma TwoRoundsBounds<J>(m: seq<real>, w1: (J, nat) -> real, a1: seq<J>, w2: (J, nat) -> real, a2: seq<J>,
                           i: nat, p: J -> bool, lo: real, hi: real)
    requires i < |m| && m[i] == 1.0
    requires 0.0 < lo <= 1.0 <= hi
    requires forall j :: p(j) ==> lo <= Column(w1, i)(j) < 1.0
    requires forall j :: !p(j) ==> Column(w1, i)(j) == 1.0
    requires forall j :: p(j) ==> 1.0 < Column(w2, i)(j) <= hi
    requires forall j :: !p(j) ==> Column(w2, i)(j) == 1.0
    ensures var r := ScaleAll(ScaleAll(m, w1, a1), w2, a2)[i];
            var k1, k2 := CountIf(p, a1), CountIf(p, a2);
            && 0.0 < Pow(lo, k1) <= r <= Pow(hi, k2)
            && (k1 > 0 && k2 == 0 ==> r < 1.0)
            && (k1 == 0 && k2 > 0 ==> r > 1.0)
            && (k1 == 0 && k2 == 0 ==> r == 1.0)
  {
    var f1, f2 := Column(w1, i), Column(w2, i);
    var p1, p2 := TwoRoundsProduct(m, w1, a1, w2, a2, i);
    ProdOfPenalties(f1, p, a1);
    ProdFloor(f1, p, lo, a1);
    ProdOfBoosts(f2, p, a2);
    ProdCeiling(f2, p, hi, a2);
    PowBounds(hi, CountIf(p, a2));
    CombineBands(p1, p2, ScaleAll(ScaleAll(m, w1, a1), w2, a2)[i],
                 Pow(lo, CountIf(p, a1)), Pow(hi, CountIf(p, a2)));
  }

  /** A product `p1` in `[lo, 1]` times a product `p2` in `[1, hi]`. */
  lemma CombineBands(p1: real, p2: real, r: real, lo: real, hi: real)
    requires r == p1 * p2
    requires 0.0 < lo <= p1 <= 1.0 && 1.0 <= p2 <= hi
    ensures lo <= r <= hi
    ensures p1 < 1.0 && p2 == 1.0 ==> r < 1.0
    ensures p1 == 1.0 && p2 > 1.0 ==> r > 1.0
    ensures p1 == 1.0 && p2 == 1.0 ==> r == 1.0
  {
    ProductBetween(p1, p2, r);
  }

  /** A product of `x` in `(0, 1]` and `y` at least 1 lies between them, strictly when
      either is not 1. */
  lemma ProductBetween(x: real, y: real, r: real)
    requires r == x * y && 0.0 < x <= 1.0 <= y
    ensures x <= r <= y
    ensures x < 1.0 ==> r < y
    ensures y > 1.0 ==> x < r
  {
    assert x * 1.0 <= x * y;
    assert x * y <= 1.0 * y;
    if x < 1.0 {
      assert x * y < 1.0 * y;
    }
    if y > 1.0 {
      assert x * 1.0 < x * y;
    }
  }
}
