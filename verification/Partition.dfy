/** How the RandomX dataset is split among the initialisation threads. */
module Partition {

  function BatchSize(work: nat, threads: nat): nat
    requires threads > 0
  {
    work / threads
  }

  /** calculate_thd: the range of thread idx; the last one also takes the remainder. */
  function First(work: nat, threads: nat, idx: nat): nat
    requires idx < threads
  {
    idx * BatchSize(work, threads)
  }

  function Count(work: nat, threads: nat, idx: nat): nat
    requires idx < threads
  {
    if idx == threads - 1 then BatchSize(work, threads) + work % threads else BatchSize(work, threads)
  }

  predicate Covers(work: nat, threads: nat, idx: nat, item: nat)
    requires idx < threads
  {
    First(work, threads, idx) <= item < First(work, threads, idx) + Count(work, threads, idx)
  }

  /** The thread that initialises an item. */
  function Owner(work: nat, threads: nat, item: nat): (idx: nat)
    requires threads > 0 && item < work
    ensures idx < threads
  {
    var batch := BatchSize(work, threads);
    if batch == 0 || item / batch >= threads then threads - 1 else item / batch
  }

  /** Every item belongs to exactly one thread, and ranges stay within the dataset. */
  lemma EachItemHasOneOwner(work: nat, threads: nat, idx: nat, item: nat)
    requires idx < threads
    ensures Covers(work, threads, idx, item) <==> item < work && idx == Owner(work, threads, item)
  {
    var batch, rest := BatchSize(work, threads), work % threads;
    Quotient(work, threads);
    if batch > 0 {
      Quotient(item, batch);
      OwnerOf(batch, rest, threads, idx, item / batch, item % batch);
    }
  }

  lemma Quotient(a: nat, b: nat)
    requires b > 0
    ensures a == a / b * b + a % b && a == b * (a / b) + a % b && a % b < b
  {
  }

  lemma OwnerOf(batch: nat, rest: nat, threads: nat, idx: nat, q: nat, r: nat)
    requires idx < threads && r < batch
    ensures idx * batch <= q * batch + r < idx * batch + (if idx == threads - 1 then batch + rest else batch)
            <==> q * batch + r < threads * batch + rest && idx == (if q >= threads then threads - 1 else q)
  {
    Order(idx, q, batch, r);
    Order(threads - 1, q, batch, r);
    Order(threads, q, batch, r);
  }

  /** idx * batch <= q * batch + r, for a remainder r, exactly when idx <= q. */
  lemma Order(idx: nat, q: nat, batch: nat, r: nat)
    requires r < batch
    ensures idx * batch <= q * batch + r <==> idx <= q
    ensures (idx + 1) * batch == idx * batch + batch
    ensures q * batch + r < idx * batch + batch <==> q <= idx
  {
    Difference(q, idx, batch);
    if q > idx { AtLeastOne(q - idx, batch); }
    if q < idx { AtLeastOne(idx - q, batch); }
  }

  lemma Difference(a: nat, b: nat, n: nat)
    ensures (a - b) * n == a * n - b * n && (b - a) * n == b * n - a * n
  {
  }

  lemma AtLeastOne(a: nat, n: nat)
    requires a > 0
    ensures a * n >= n
  {
  }

  predicate EachOnce(order: seq<nat>, threads: nat) {
    && (forall i :: 0 <= i < |order| ==> order[i] < threads)
    && (forall i, j :: 0 <= i < j < |order| ==> order[i] != order[j])
    && (forall idx: nat :: idx < threads ==> idx in order)
  }

  /** randomx_init_dataset, counting how often each item is written. */
  method InitItems(writes: array<nat>, first: nat, count: nat)
    requires first + count <= writes.Length
    modifies writes
    ensures forall k :: 0 <= k < writes.Length ==>
              writes[k] == old(writes[k]) + if first <= k < first + count then 1 else 0
  {
    for n := 0 to count
      invariant forall k :: 0 <= k < writes.Length ==>
                  writes[k] == old(writes[k]) + if first <= k < first + n then 1 else 0
    {
      writes[first + n] := writes[first + n] + 1;
    }
  }

  /** Whatever order the threads run in, each item of the dataset is initialised exactly once. */
  method InitDataset(writes: array<nat>, threads: nat, order: seq<nat>)
    requires threads > 0 && EachOnce(order, threads)
    modifies writes
    ensures forall k :: 0 <= k < writes.Length ==> writes[k] == old(writes[k]) + 1
  {
    ghost var work := writes.Length;
    for n := 0 to |order|
      invariant forall k :: 0 <= k < work ==>
                  writes[k] == old(writes[k]) + if Owner(work, threads, k) in order[..n] then 1 else 0
    {
      var idx := order[n];
      forall k: nat ensures Covers(work, threads, idx, k) <==> k < work && idx == Owner(work, threads, k) {
        EachItemHasOneOwner(work, threads, idx, k);
      }
      RangeFits(work, threads, idx);
      InitItems(writes, First(writes.Length, threads, idx), Count(writes.Length, threads, idx));
      assert order[..n + 1] == order[..n] + [idx];
      assert idx !in order[..n];
    }
    assert order[..|order|] == order;
  }

  lemma RangeFits(work: nat, threads: nat, idx: nat)
    requires idx < threads
    ensures First(work, threads, idx) + Count(work, threads, idx) <= work
  {
    var batch := BatchSize(work, threads);
    Quotient(work, threads);
    Difference(threads, idx, batch);
    AtLeastOne(threads - idx, batch);
  }
}
