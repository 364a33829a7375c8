/**
 Round-robin placement: which nodes a selection takes, and how evenly runs of selections load
 the nodes, including what happens when the 32-bit selection counter wraps.
 */
module Placement {
  import opened Types

  /** The selection counter is an unsigned 32-bit integer. */
  const UINT32_SPAN := 0x1_0000_0000

  /** The window of `r` consecutive slots of the ring `order`, from slot `start` on. */
  function Select<T>(order: seq<T>, start: nat, r: nat): seq<T>
    requires |order| > 0
  {
    seq(r, i requires 0 <= i < r => order[(start + i) % |order|])
  }

  /** Where the counter value `counter` makes the window start. */
  function StartOf(counter: nat, n: nat): nat
    requires n > 0
  {
    (counter % UINT32_SPAN) % n
  }

  /** The counter is a 32-bit one. */
  lemma StartOfCounter(counter: nat, n: nat)
    requires n > 0
    ensures StartOf(counter, n) == (if counter < 0x1_0000_0000 then counter % n else StartOf(counter - 0x1_0000_0000, n))
  {
  }

  lemma StartOfWrapped(x: nat, n: nat)
    requires n > 0
    ensures StartOf(x % UINT32_SPAN, n) == StartOf(x, n)
  {
    var y := x % UINT32_SPAN;
    assert y % UINT32_SPAN == y;
  }

  /** Everything placed by `k` successive selections from counter value `counter` on. */
  function Placed<T>(order: seq<T>, counter: nat, r: nat, k: nat): seq<T>
    requires |order| > 0
  {
    if k == 0 then [] else
      Placed(order, counter, r, k - 1) + Select(order, StartOf(counter + k - 1, |order|), r)
  }

  ghost predicate NoDuplicates<T>(xs: seq<T>) {
    forall i, j :: 0 <= i < j < |xs| ==> xs[i] != xs[j]
  }

  /** `order` lists every key of the registry once: an iteration order of the hash table. */
  ghost predicate IsOrderOf<T>(order: seq<T>, keys: set<T>) {
    && NoDuplicates(order)
    && (set x | x in order) == keys
  }

  /** An iteration order has as many entries as there are keys. */
  lemma OrderCounts<T>(order: seq<T>, keys: set<T>)
    requires IsOrderOf(order, keys)
    ensures |order| == |keys|
  {
    DistinctCount(order);
  }

  /** Every registry has an iteration order, and it has as many entries as keys. */
  lemma {:induction false} OrderExists<T>(keys: set<T>) returns (order: seq<T>)
    ensures IsOrderOf(order, keys) && |order| == |keys|
  {
    if keys == {} {
      order := [];
      assert (set x | x in order) == keys;
    } else {
      var key :| key in keys;
      var rest := OrderExists(keys - {key});
      order := rest + [key];
      forall x
        ensures x in order <==> x in keys
      {
        var listed := set y | y in rest;
        assert x in rest <==> x in listed;
        assert listed == keys - {key};
      }
      assert (set x | x in order) == keys;
    }
  }

  // ---------------------------------------------------------------- ring arithmetic

  lemma MultipleAtLeast(d: int, n: int)
    requires d >= 1 && n > 0
    ensures d * n >= n
  {
    assert d * n == (d - 1) * n + n;
  }

  lemma QuotientUnique(n: int, q: int, m: int, q0: int, m0: int)
    requires 0 <= m < n && 0 <= m0 < n && q * n + m == q0 * n + m0
    ensures q == q0 && m == m0
  {
    if q0 > q {
      assert (q0 - q) * n == q0 * n - q * n;
      MultipleAtLeast(q0 - q, n);
    } else if q0 < q {
      assert (q - q0) * n == q * n - q0 * n;
      MultipleAtLeast(q - q0, n);
    }
  }

  lemma DivModUnique(a: int, n: int, q: int, m: int)
    requires n > 0 && 0 <= m < n && a == q * n + m
    ensures a / n == q && a % n == m
  {
    QuotientUnique(n, q, m, a / n, a % n);
  }

  lemma DivModStep(a: int, n: int)
    requires n > 0
    ensures a % n < n - 1 ==> (a + 1) / n == a / n && (a + 1) % n == a % n + 1
    ensures a % n == n - 1 ==> (a + 1) / n == a / n + 1 && (a + 1) % n == 0
  {
    if a % n < n - 1 {
      DivModUnique(a + 1, n, a / n, a % n + 1);
    } else {
      DivModUnique(a + 1, n, a / n + 1, 0);
    }
  }

  lemma ModAddMultiple(a: int, n: int, q: int)
    requires n > 0
    ensures (a + q * n) % n == a % n
  {
    DivModUnique(a + q * n, n, a / n + q, a % n);
  }

  lemma ModCongruent(a: int, b: int, n: int)
    requires n > 0
    ensures a % n == b % n <==> (a - b) % n == 0
  {
    if a % n == b % n {
      DivModUnique(a - b, n, a / n - b / n, 0);
    }
    if (a - b) % n == 0 {
      ModAddMultiple(b, n, (a - b) / n);
    }
  }

  /** Slot `start + r` of the ring is slot `p` exactly when `r` is `p`'s distance from `start`. */
  lemma RingDistance(n: nat, start: int, p: nat, r: int)
    requires n > 0 && p < n
    ensures (start + r) % n == p <==> (p - start) % n == r % n
  {
    DivModUnique(p, n, 0, p);
    ModCongruent(start + r, p, n);
    ModCongruent(p - start, r, n);
    ModCongruent(0, start + r - p, n);
    ModCongruent(0, p - start - r, n);
    var x := start + r - p;
    if x % n == 0 {
      DivModUnique(-x, n, -(x / n), 0);
    }
    if (-x) % n == 0 {
      DivModUnique(x, n, -((-x) / n), 0);
    }
    assert p - start - r == -x;
  }

  // ---------------------------------------------------------------- one selection

  /** How often a window of `r` slots from `start` on a ring of `n` slots covers slot `p`. */
  function Hits(n: nat, start: int, p: nat, r: nat): nat
    requires n > 0
  {
    if r == 0 then 0 else
      Hits(n, start, p, r - 1) + (if (start + r - 1) % n == p then 1 else 0)
  }

  lemma {:induction false} HitsExact(n: nat, start: int, p: nat, r: nat)
    requires n > 0 && p < n
    ensures Hits(n, start, p, r) == r / n + (if (p - start) % n < r % n then 1 else 0)
  {
    if r == 0 {
    } else {
      HitsExact(n, start, p, r - 1);
      DivModStep(r - 1, n);
      RingDistance(n, start, p, r - 1);
    }
  }

  lemma DistanceMod(n: int, a: int, b: int, p: int)
    requires n > 0 && a % n == b % n
    ensures (p - a) % n == (p - b) % n
  {
    ModCongruent(p - a, p - b, n);
    ModCongruent(b, a, n);
  }

  lemma HitsMod(n: nat, a: int, b: int, p: nat, r: nat)
    requires n > 0 && p < n && a % n == b % n
    ensures Hits(n, a, p, r) == Hits(n, b, p, r)
  {
    HitsExact(n, a, p, r);
    HitsExact(n, b, p, r);
    DistanceMod(n, a, b, p);
  }

  lemma {:induction false} SelectHits<T>(order: seq<T>, start: nat, r: nat, p: nat)
    requires NoDuplicates(order) && p < |order|
    ensures multiset(Select(order, start, r))[order[p]] == Hits(|order|, start, p, r)
  {
    if r == 0 {
    } else {
      SelectHits(order, start, r - 1, p);
      var q := (start + r - 1) % |order|;
      assert Select(order, start, r) == Select(order, start, r - 1) + [order[q]];
      assert q != p ==> order[q] != order[p];
    }
  }

  lemma FloorPositive(r: nat, n: nat)
    requires 0 < n <= r
    ensures r / n >= 1
  {
    DivModUnique(r - n, n, (r - n) / n, (r - n) % n);
    DivModUnique(r, n, (r - n) / n + 1, (r - n) % n);
  }

  lemma CeilingOf(r: nat, n: nat)
    requires n > 0
    ensures (r + n - 1) / n == r / n + (if 0 < r % n then 1 else 0)
  {
    if r % n == 0 {
      DivModUnique(r + n - 1, n, r / n, n - 1);
    } else {
      DivModUnique(r + n - 1, n, r / n + 1, r % n - 1);
    }
  }

  lemma SelectNodeCount<T>(order: seq<T>, start: nat, r: nat, x: T)
    requires NoDuplicates(order) && x in order
    ensures r / |order| <= multiset(Select(order, start, r))[x] <= (r + |order| - 1) / |order|
    ensures r >= |order| ==> x in Select(order, start, r)
  {
    var p :| 0 <= p < |order| && order[p] == x;
    SelectHits(order, start, r, p);
    HitsExact(|order|, start, p, r);
    CeilingOf(r, |order|);
    if r >= |order| {
      FloorPositive(r, |order|);
      assert x in multiset(Select(order, start, r));
    }
  }

  lemma SlotsDiffer(n: nat, start: int, i: int, j: int)
    requires 0 <= i < j < i + n
    ensures (start + i) % n != (start + j) % n
  {
    ModCongruent(start + j, start + i, n);
    DivModUnique(j - i, n, 0, j - i);
    assert (start + j) - (start + i) == j - i;
  }

  lemma SelectNoDuplicates<T>(order: seq<T>, start: nat, r: nat)
    requires |order| > 0 && NoDuplicates(order) && r <= |order|
    ensures NoDuplicates(Select(order, start, r))
  {
    var sel := Select(order, start, r);
    forall i, j | 0 <= i < j < |sel|
      ensures sel[i] != sel[j]
    {
      SlotsDiffer(|order|, start, i, j);
      var a, b := (start + i) % |order|, (start + j) % |order|;
      assert sel[i] == order[a] && sel[j] == order[b];
    }
  }

  /**
   Placement shape. A selection takes `r` registered nodes; every node gets the floor or the
   ceiling of r/n of them, so no node is used twice when there are at least `r` nodes, and every
   node is used when there are at most `r`.
   */
  lemma SelectShape<T>(order: seq<T>, start: nat, r: nat)
    requires |order| > 0 && NoDuplicates(order)
    ensures |Select(order, start, r)| == r
    ensures forall x :: x in Select(order, start, r) ==> x in order
    ensures forall x :: x in order ==>
                          r / |order| <= multiset(Select(order, start, r))[x] <= (r + |order| - 1) / |order|
    ensures r <= |order| ==> NoDuplicates(Select(order, start, r))
    ensures r >= |order| ==> forall x :: x in order ==> x in Select(order, start, r)
  {
    forall x | x in order
      ensures r / |order| <= multiset(Select(order, start, r))[x] <= (r + |order| - 1) / |order|
      ensures r >= |order| ==> x in Select(order, start, r)
    {
      SelectNodeCount(order, start, r, x);
    }
    if r <= |order| {
      SelectNoDuplicates(order, start, r);
    }
  }

  /** A window starts at its slot of the ring. */
  lemma SelectStarts<T>(order: seq<T>, start: nat, r: nat)
    requires |order| > 0 && r > 0
    ensures |Select(order, start, r)| == r && Select(order, start, r)[0] == order[start % |order|]
  {
  }

  /** After a node comes the next one in the order, and after the last the first. */
  lemma SelectWalks<T>(order: seq<T>, start: nat, r: nat, i: nat, p: nat)
    requires NoDuplicates(order) && i + 1 < r && p < |order| && Select(order, start, r)[i] == order[p]
    ensures Select(order, start, r)[i + 1] == order[if p == |order| - 1 then 0 else p + 1]
  {
    SlotOf(order, (start + i) % |order|, p);
    DivModStep(start + i, |order|);
  }

  lemma SlotOf<T>(order: seq<T>, q: nat, p: nat)
    requires NoDuplicates(order) && p < |order| && q < |order| && order[q] == order[p]
    ensures q == p
  {
  }

  /** The number of different nodes a selection uses: all of them, up to `r`. */
  lemma SelectDistinct<T>(order: seq<T>, start: nat, r: nat)
    requires |order| > 0 && NoDuplicates(order)
    ensures |set x | x in Select(order, start, r)| == Min(r, |order|)
  {
    var sel := Select(order, start, r);
    SelectShape(order, start, r);
    if r <= |order| {
      DistinctCount(sel);
    } else {
      DistinctCount(order);
      assert (set x | x in sel) == (set x | x in order);
    }
  }

  lemma {:induction false} DistinctCount<T>(xs: seq<T>)
    requires NoDuplicates(xs)
    ensures |set x | x in xs| == |xs|
  {
    if |xs| > 0 {
      var last := xs[|xs| - 1];
      var rest := xs[..|xs| - 1];
      DistinctCount(rest);
      assert xs == rest + [last];
      assert (set x | x in xs) == (set x | x in rest) + {last};
      assert last !in rest;
    }
  }

  // ---------------------------------------------------------------- runs of selections

  /** The load that `k` selections from counter value `counter` on put on slot `p`. */
  function Load(n: nat, counter: nat, p: nat, r: nat, k: nat): nat
    requires n > 0
  {
    if k == 0 then 0 else
      Load(n, counter, p, r, k - 1) + Hits(n, StartOf(counter + k - 1, n), p, r)
  }

  lemma LoadLast(n: nat, counter: nat, p: nat, r: nat, k: nat, start: nat)
    requires n > 0 && k > 0 && start == StartOf(counter + k - 1, n)
    ensures Load(n, counter, p, r, k) == Load(n, counter, p, r, k - 1) + Hits(n, start, p, r)
  {
  }

  lemma {:induction false} PlacedLoad<T>(order: seq<T>, counter: nat, r: nat, k: nat, p: nat)
    requires NoDuplicates(order) && p < |order|
    ensures multiset(Placed(order, counter, r, k))[order[p]] == Load(|order|, counter, p, r, k)
  {
    if k == 0 {
    } else {
      PlacedLoad(order, counter, r, k - 1, p);
      var start := StartOf(counter + k - 1, |order|);
      SelectHits(order, start, r, p);
      var before, sel := Placed(order, counter, r, k - 1), Select(order, start, r);
      assert Placed(order, counter, r, k) == before + sel;
      CountConcat(before, sel, order[p]);
    }
  }

  lemma CountConcat<T>(xs: seq<T>, ys: seq<T>, x: T)
    ensures multiset(xs + ys)[x] == multiset(xs)[x] + multiset(ys)[x]
  {
  }

  /** Row sums: position `i` of the windows, for each i < r, over `k` selections. */
  function Rows(n: nat, counter: nat, p: nat, r: nat, k: nat): nat
    requires n > 0
  {
    if r == 0 then 0 else Rows(n, counter, p, r - 1, k) + Hits(n, counter + r - 1, p, k)
  }

  lemma {:induction false} RowsStep(n: nat, counter: nat, p: nat, r: nat, k: nat)
    requires n > 0 && p < n
    ensures Rows(n, counter, p, r, k + 1) == Rows(n, counter, p, r, k) + Hits(n, counter + k, p, r)
  {
    if r == 0 {
    } else {
      RowsStep(n, counter, p, r - 1, k);
      assert counter + r - 1 + k == counter + k + r - 1;
    }
  }

  lemma {:induction false} RowsOfNone(n: nat, counter: nat, p: nat, r: nat)
    requires n > 0
    ensures Rows(n, counter, p, r, 0) == 0
  {
    if r > 0 {
      RowsOfNone(n, counter, p, r - 1);
    }
  }

  /** The counter's wrap cannot be seen in the starts of the windows. */
  ghost predicate NoVisibleWrap(n: nat, counter: nat, k: nat)
    requires n > 0
  {
    counter + k <= UINT32_SPAN || UINT32_SPAN % n == 0
  }

  lemma StartCongruent(n: nat, c: nat)
    requires n > 0 && NoVisibleWrap(n, c, 1)
    ensures StartOf(c, n) % n == c % n
  {
    if c < UINT32_SPAN {
      DivModUnique(c, UINT32_SPAN, 0, c);
    } else {
      var q, w := c / UINT32_SPAN, UINT32_SPAN / n;
      assert c - c % UINT32_SPAN == q * UINT32_SPAN;
      WholeTurns(n, q, w);
      ModCongruent(c % UINT32_SPAN, c, n);
      ModCongruent(0, c % UINT32_SPAN - c, n);
      ModAddMultiple(c % UINT32_SPAN, n, q * w);
    }
    DivModUnique(c % n, n, 0, c % n);
  }

  lemma WholeTurns(n: nat, q: nat, w: nat)
    requires n > 0 && UINT32_SPAN % n == 0 && w == UINT32_SPAN / n
    ensures q * UINT32_SPAN == (q * w) * n
  {
    assert UINT32_SPAN == w * n;
  }

  /** Counting the same covered slots selection by selection or position by position. */
  lemma {:induction false} LoadByRows(n: nat, counter: nat, p: nat, r: nat, k: nat)
    requires n > 0 && p < n && NoVisibleWrap(n, counter, k)
    ensures Load(n, counter, p, r, k) == Rows(n, counter, p, r, k)
  {
    if k == 0 {
      RowsOfNone(n, counter, p, r);
    } else {
      LoadByRows(n, counter, p, r, k - 1);
      RowsStep(n, counter, p, r, k - 1);
      StartCongruent(n, counter + k - 1);
      HitsMod(n, StartOf(counter + k - 1, n), counter + k - 1, p, r);
    }
  }

  lemma {:induction false} RowsBounds(n: nat, counter: nat, p: nat, r: nat, k: nat)
    requires n > 0 && p < n
    ensures r * (k / n) <= Rows(n, counter, p, r, k) <= r * (k / n) + r
    ensures k % n == 0 ==> Rows(n, counter, p, r, k) == r * (k / n)
  {
    if r == 0 {
    } else {
      RowsBounds(n, counter, p, r - 1, k);
      HitsExact(n, counter + r - 1, p, k);
      assert r * (k / n) == (r - 1) * (k / n) + k / n;
    }
  }

  lemma RoundLoad(n: nat, counter: nat, p: nat, r: nat)
    requires n > 0 && p < n && NoVisibleWrap(n, counter, n)
    ensures Load(n, counter, p, r, n) == r
  {
    LoadByRows(n, counter, p, r, n);
    DivModUnique(n, n, 1, 0);
    RowsBounds(n, counter, p, r, n);
  }

  /** Round-robin fairness: n selections in a row give each of the n nodes exactly `r` replicas. */
  lemma RoundIsFair<T>(order: seq<T>, counter: nat, r: nat, x: T)
    requires NoDuplicates(order) && x in order
    requires counter + |order| <= UINT32_SPAN
    ensures multiset(Placed(order, counter, r, |order|))[x] == r
  {
    var p :| 0 <= p < |order| && order[p] == x;
    PlacedLoad(order, counter, r, |order|, p);
    RoundLoad(|order|, counter, p, r);
  }

  /** Over any number of selections in a row the loads of two nodes differ by at most `r`. */
  lemma LoadsStayClose<T>(order: seq<T>, counter: nat, r: nat, k: nat, x: T, y: T)
    requires NoDuplicates(order) && x in order && y in order
    requires counter + k <= UINT32_SPAN
    ensures multiset(Placed(order, counter, r, k))[x] <= multiset(Placed(order, counter, r, k))[y] + r
  {
    var n := |order|;
    var p :| 0 <= p < n && order[p] == x;
    var q :| 0 <= q < n && order[q] == y;
    PlacedLoad(order, counter, r, k, p);
    PlacedLoad(order, counter, r, k, q);
    LoadByRows(n, counter, p, r, k);
    LoadByRows(n, counter, q, r, k);
    RowsBounds(n, counter, p, r, k);
    RowsBounds(n, counter, q, r, k);
  }

  // ---------------------------------------------------------------- the counter wraps

  /** Every n selections in a row are fair, from every value of the 32-bit counter on. */
  ghost predicate AlwaysFair<T>(order: seq<T>, r: nat)
    requires |order| > 0
  {
    forall counter: nat, p: nat :: counter < UINT32_SPAN && p < |order| ==>
                                     multiset(Placed(order, counter, r, |order|))[order[p]] == r
  }

  /** A window that covers every slot `q` times. */
  lemma UniformHits(n: nat, start: int, p: nat, r: nat, q: nat)
    requires n > 0 && p < n && r % n == 0 && q == r / n
    ensures Hits(n, start, p, r) == q
  {
    HitsExact(n, start, p, r);
    DivModUnique(p - start, n, (p - start) / n, (p - start) % n);
  }

  lemma OneMore(k: nat, q: nat)
    requires k > 0
    ensures (k - 1) * q + q == k * q
  {
  }

  lemma {:induction false} UniformLoad(n: nat, counter: nat, p: nat, r: nat, k: nat, q: nat)
    requires n > 0 && p < n && r % n == 0 && q == r / n
    ensures Load(n, counter, p, r, k) == k * q
  {
    if k > 0 {
      UniformLoad(n, counter, p, r, k - 1, q);
      UniformHits(n, StartOf(counter + k - 1, n), p, r, q);
      OneMore(k, q);
    }
  }

  /** Started at the last counter value, the window wraps after one selection. */
  lemma {:induction false} LoadAcrossWrap(n: nat, p: nat, r: nat, k: nat)
    requires n > 0 && p < n && 1 <= k <= UINT32_SPAN
    ensures Load(n, UINT32_SPAN - 1, p, r, k) == Hits(n, UINT32_SPAN - 1, p, r) + Load(n, 0, p, r, k - 1)
  {
    StartCongruent(n, UINT32_SPAN - 1);
    HitsMod(n, StartOf(UINT32_SPAN - 1, n), UINT32_SPAN - 1, p, r);
    if k == 1 {
      assert Load(n, UINT32_SPAN - 1, p, r, 1) == Load(n, UINT32_SPAN - 1, p, r, 0) + Hits(n, StartOf(UINT32_SPAN - 1, n), p, r);
    } else {
      LoadAcrossWrap(n, p, r, k - 1);
      DivModUnique(UINT32_SPAN - 1 + k - 1, UINT32_SPAN, 1, k - 2);
      DivModUnique(k - 2, UINT32_SPAN, 0, k - 2);
    }
  }

  ghost predicate SameHits(n: nat, a: int, b: int, r: nat)
    requires n > 0
  {
    forall p: nat :: p < n ==> Hits(n, a, p, r) == Hits(n, b, p, r)
  }

  lemma InWindow(n: nat, a: int, b: int, r: nat, x: int)
    requires n > 0 && SameHits(n, a, b, r)
    ensures (x - a) % n < r % n <==> (x - b) % n < r % n
  {
    var p := x % n;
    DivModUnique(p, n, 0, p);
    HitsExact(n, a, p, r);
    HitsExact(n, b, p, r);
    ShiftMod(n, p, x, a);
    ShiftMod(n, p, x, b);
  }

  lemma ShiftMod(n: nat, p: int, x: int, a: int)
    requires n > 0 && p % n == x % n
    ensures (p - a) % n == (x - a) % n
  {
    ModCongruent(p, x, n);
    ModCongruent(p - a, x - a, n);
    assert (p - a) - (x - a) == p - x;
  }

  lemma PredecessorMod(n: nat, d: int)
    requires n > 0 && d % n > 0
    ensures (d - 1) % n == d % n - 1
  {
    DivModUnique(d - 1, n, d / n, d % n - 1);
  }

  /** Two windows that cover every slot equally often start at the same slot, or cover whole turns. */
  lemma SameHitsSameStart(n: nat, a: int, b: int, r: nat)
    requires n > 0 && r % n != 0 && SameHits(n, a, b, r)
    ensures a % n == b % n
  {
    InWindow(n, a, b, r, a);
    DivModUnique(0, n, 0, 0);
    assert (a - a) % n == 0;
    assert (a - b) % n < r % n;
    InWindow(n, a, b, r, a - 1);
    DivModUnique(-1, n, -1, n - 1);
    assert (a - 1 - a) % n == n - 1;
    assert a - 1 - b == a - b - 1;
    if (a - b) % n > 0 {
      PredecessorMod(n, a - b);
    }
    ModCongruent(a, b, n);
  }

  lemma WholeQuotient(n: nat, r: nat)
    requires n > 0 && r % n == 0
    ensures n * (r / n) == r
  {
  }

  lemma UniformRoundLoad(n: nat, counter: nat, p: nat, r: nat)
    requires n > 0 && p < n && r % n == 0
    ensures Load(n, counter, p, r, n) == r
  {
    UniformLoad(n, counter, p, r, n, r / n);
    WholeQuotient(n, r);
  }

  lemma DividingRoundLoad(n: nat, counter: nat, p: nat, r: nat)
    requires n > 0 && p < n
    requires UINT32_SPAN % n == 0 || r % n == 0
    ensures Load(n, counter, p, r, n) == r
  {
    if r % n == 0 {
      UniformRoundLoad(n, counter, p, r);
    } else {
      RoundLoad(n, counter, p, r);
    }
  }

  lemma FairWhenDividing<T>(order: seq<T>, r: nat)
    requires NoDuplicates(order) && |order| > 0
    requires UINT32_SPAN % |order| == 0 || r % |order| == 0
    ensures AlwaysFair(order, r)
  {
    forall counter: nat, p: nat | counter < UINT32_SPAN && p < |order|
      ensures multiset(Placed(order, counter, r, |order|))[order[p]] == r
    {
      PlacedLoad(order, counter, r, |order|, p);
      DividingRoundLoad(|order|, counter, p, r);
    }
  }

  lemma FairSlotAcrossWrap(n: nat, p: nat, r: nat)
    requires 0 < n <= UINT32_SPAN && p < n && Load(n, UINT32_SPAN - 1, p, r, n) == r
    ensures Hits(n, UINT32_SPAN - 1, p, r) == Hits(n, n - 1, p, r)
  {
    LoadAcrossWrap(n, p, r, n);
    assert Load(n, 0, p, r, n) == r by {
      RoundLoad(n, 0, p, r);
    }
    assert Load(n, 0, p, r, n) == Load(n, 0, p, r, n - 1) + Hits(n, StartOf(n - 1, n), p, r);
    assert Hits(n, StartOf(n - 1, n), p, r) == Hits(n, n - 1, p, r) by {
      StartCongruent(n, n - 1);
      HitsMod(n, StartOf(n - 1, n), n - 1, p, r);
    }
  }

  lemma DividingWhenFair<T>(order: seq<T>, r: nat)
    requires NoDuplicates(order) && 0 < |order| <= UINT32_SPAN
    requires AlwaysFair(order, r) && r % |order| != 0
    ensures UINT32_SPAN % |order| == 0
  {
    var n, last, final := |order|, UINT32_SPAN - 1, |order| - 1;
    forall p: nat | p < n
      ensures Hits(n, last, p, r) == Hits(n, final, p, r)
    {
      PlacedLoad(order, last, r, n, p);
      FairSlotAcrossWrap(n, p, r);
    }
    SameHitsSameStart(n, last, final, r);
    DivModUnique(final, n, 0, final);
    DivModStep(last, n);
  }

  /**
   What the wrap of the counter does to fairness. Every n selections in a row are fair from every
   counter value on exactly when the number of nodes divides 2^32, or divides the replication
   factor (each selection then uses every node equally often).
   */
  lemma AlwaysFairExactly<T>(order: seq<T>, r: nat)
    requires NoDuplicates(order) && 0 < |order| <= UINT32_SPAN
    ensures AlwaysFair(order, r) <==> UINT32_SPAN % |order| == 0 || r % |order| == 0
  {
    if UINT32_SPAN % |order| == 0 || r % |order| == 0 {
      FairWhenDividing(order, r);
    } else if AlwaysFair(order, r) {
      DividingWhenFair(order, r);
    }
  }

  /**
   A concrete case: three replicas on five nodes, and a round of five selections that starts at the
   last counter value. The third node gets four replicas and the fifth gets two.
   */
  lemma FiveNodesUnfairAtWrap(order: seq<NodeId>)
    requires NoDuplicates(order) && |order| == 5
    ensures multiset(Placed(order, UINT32_SPAN - 1, REPLICATION_FACTOR, 5))[order[2]] == 4
    ensures multiset(Placed(order, UINT32_SPAN - 1, REPLICATION_FACTOR, 5))[order[4]] == 2
    ensures !AlwaysFair(order, REPLICATION_FACTOR)
  {
    AlwaysFairExactly(order, REPLICATION_FACTOR);
    PlacedLoad(order, UINT32_SPAN - 1, REPLICATION_FACTOR, 5, 2);
    PlacedLoad(order, UINT32_SPAN - 1, REPLICATION_FACTOR, 5, 4);
    FiveNodeLoad(2);
    FiveNodeLoad(4);
  }

  /** The five windows start at slots 0, 0, 1, 2 and 3. */
  lemma FiveNodeLoad(p: nat)
    requires p < 5
    ensures Load(5, UINT32_SPAN - 1, p, 3, 5) == if p == 2 then 4 else if p == 4 then 2 else 3
  {
    var c := UINT32_SPAN - 1;
    assert Load(5, c, p, 3, 0) == 0;
    LoadLast(5, c, p, 3, 1, 0);
    LoadLast(5, c, p, 3, 2, 0);
    LoadLast(5, c, p, 3, 3, 1);
    LoadLast(5, c, p, 3, 4, 2);
    LoadLast(5, c, p, 3, 5, 3);
    HitsExact(5, 0, p, 3);
    HitsExact(5, 1, p, 3);
    HitsExact(5, 2, p, 3);
    HitsExact(5, 3, p, 3);
  }
}
