/** The ring buffer of misc.hpp: a fixed array read newest first through wrapping indices. */
module RingBuffers {
  import opened Words

  /** Where the i-th newest value lives when the next write goes to `pos`. */
  function Slot(pos: nat, i: nat, n: nat): (s: nat)
    requires pos < n && i < n
    ensures s < n
  {
    if i < pos then pos - i - 1 else pos - i - 1 + n
  }

  /** One insertion, on the newest-first view. */
  function Pushed<T>(view: seq<T>, val: T): seq<T>
    requires view != []
  {
    [val] + view[..|view| - 1]
  }

  /** The array read newest first, from just before the next write position round to it. */
  function ViewOf<T>(cells: seq<T>, pos: nat): (v: seq<T>)
    requires pos < |cells|
    ensures |v| == |cells|
  {
    seq(|cells|, i requires 0 <= i < |cells| => cells[Slot(pos, i, |cells|)])
  }

  lemma WriteIsPush<T>(cells: seq<T>, pos: nat, val: T)
    requires pos < |cells|
    ensures ViewOf(cells[pos := val], if pos + 1 < |cells| then pos + 1 else 0) == Pushed(ViewOf(cells, pos), val)
  {
    var n, next := |cells|, if pos + 1 < |cells| then pos + 1 else 0;
    forall i | 0 <= i < n
      ensures ViewOf(cells[pos := val], next)[i] == Pushed(ViewOf(cells, pos), val)[i]
    {
      assert i > 0 ==> Slot(next, i, n) == Slot(pos, i - 1, n) != pos;
    }
  }

  class RingBuffer<T(0)> {
    const size: nat
    const data: array<T>
    var pos: nat
    ghost var view: seq<T>  // the contents, newest first

    ghost predicate Valid()
      reads this, data
    {
      0 < size == data.Length && pos < size && view == ViewOf(data[..], pos)
    }

    constructor (n: nat)
      requires n > 0
      ensures Valid() && size == n && fresh(data)
    {
      size := n;
      data := new T[n];
      pos := 0;
      new;
      view := ViewOf(data[..], pos);
    }

    method Insert(val: T)
      requires Valid()
      modifies this`pos, this`view, data
      ensures Valid()
      ensures view == Pushed(old(view), val)
    {
      WriteIsPush(data[..], pos, val);
      ghost var next := if pos + 1 < size then pos + 1 else 0;
      ghost var cells := data[..][pos := val];
      data[pos] := val;
      assert data[..] == cells;
      pos := (pos + 1) % size;
      assert pos == next;
      view := Pushed(view, val);
    }

    /** operator[]: the subtraction is done on 64-bit unsigned words. */
    method Get(idx: uint64) returns (val: T)
      requires Valid()
      ensures TWO64 % size == 0 ==> |view| == size && val == view[idx % size]
    {
      var slot := W64(pos - idx - 1) % size;
      if TWO64 % size == 0 {
        WrapIsExact(pos - idx - 1, size);
        SlotOfResidue(pos, idx, size);
      }
      val := data[slot];
    }

    method Fill(val: T)
      requires Valid()
      modifies this`view, data
      ensures Valid() && view == seq(size, i => val)
    {
      forall i | 0 <= i < data.Length {
        data[i] := val;
      }
      view := ViewOf(data[..], pos);
    }
  }

  lemma WrapIsExact(y: int, n: nat)
    requires n > 0 && TWO64 % n == 0
    ensures W64(y) % n == y % n
  {
    var q, r := y / TWO64, TWO64 / n;
    assert y == q * TWO64 + W64(y) && TWO64 == r * n;
    MultipleVanishes(W64(y), q * r, n);
    assert q * (r * n) == (q * r) * n;
  }

  lemma MultipleVanishes(x: int, q: int, n: nat)
    requires n > 0
    ensures (x + q * n) % n == x % n
  {
    var a, b := x / n, x % n;
    Distribute(a, q, n);
    RemainderIs(x + q * n, a + q, b, n);
  }

  lemma Distribute(a: int, b: int, n: int)
    ensures (a + b) * n == a * n + b * n
  {
  }

  lemma RemainderIs(y: int, q: int, r: int, n: nat)
    requires n > 0 && y == q * n + r && 0 <= r < n
    ensures y % n == r
  {
    var p, t := y / n, y % n;
    assert y == p * n + t;
    Distribute(p, -q, n);
    SmallMultiple(p - q, n);
  }

  lemma SmallMultiple(k: int, n: nat)
    requires 0 < k * n + n && k * n < n
    ensures k == 0
  {
    if k > 0 { ScaleUp(k, n); }
    if k < 0 {
      ScaleUp(-k, n);
      Distribute(k, -k, n);
    }
  }

  lemma ScaleUp(k: nat, n: nat)
    requires k > 0
    ensures k * n >= n
  {
  }

  lemma SlotIsResidue(pos: nat, i: nat, n: nat)
    requires pos < n && i < n
    ensures Slot(pos, i, n) == (pos - i - 1) % n
  {
    RemainderIs(pos - i - 1, if i < pos then 0 else -1, Slot(pos, i, n), n);
  }

  lemma SlotOfResidue(pos: nat, idx: nat, n: nat)
    requires pos < n
    ensures idx % n < n && Slot(pos, idx % n, n) == (pos - idx - 1) % n
  {
    var q := idx / n;
    assert pos - idx % n - 1 == (pos - idx - 1) + q * n;
    MultipleVanishes(pos - idx - 1, q, n);
    SlotIsResidue(pos, idx % n, n);
  }

  /** The wrapping index reaches the slot meant for every position exactly for the sizes that
      divide 2^64, as 8192 does. */
  lemma WrapNeedsADivisor(n: nat)
    requires n > 0
    ensures (forall pos: nat, i: nat :: pos < n && i < n ==> W64(pos - i - 1) % n == Slot(pos, i, n))
            <==> TWO64 % n == 0
  {
    if TWO64 % n == 0 {
      forall pos: nat, i: nat | pos < n && i < n
        ensures W64(pos - i - 1) % n == Slot(pos, i, n)
      {
        WrapIsExact(pos - i - 1, n);
        SlotIsResidue(pos, i, n);
      }
    } else {
      assert Slot(0, 0, n) == n - 1 && W64(0 - 0 - 1) == TWO64 - 1;
      var q, r := TWO64 / n, TWO64 % n;
      assert TWO64 - 1 == q * n + (r - 1);
      RemainderIs(TWO64 - 1, q, r - 1, n);
    }
  }

  // ------------------------------------------------------------------ runs of insertions

  /** The view after inserting vals, first to last, into a buffer filled with one value. */
  function AfterInserts<T>(n: nat, fill: T, vals: seq<T>): (view: seq<T>)
    requires n > 0
    ensures |view| == n
  {
    if vals == [] then seq(n, i => fill)
    else Pushed(AfterInserts(n, fill, vals[..|vals| - 1]), vals[|vals| - 1])
  }

  /** A buffer filled with one value, and any run of insertions. */
  method InsertAll<T(0)>(ring: RingBuffer<T>, fill: T, vals: seq<T>)
    requires ring.Valid()
    modifies ring`pos, ring`view, ring.data
    ensures ring.Valid() && ring.view == AfterInserts(ring.size, fill, vals)
  {
    ring.Fill(fill);
    for i := 0 to |vals|
      invariant ring.Valid() && ring.view == AfterInserts(ring.size, fill, vals[..i])
    {
      ring.Insert(vals[i]);
      assert vals[..i + 1][..i] == vals[..i];
    }
    assert vals[..|vals|] == vals;
  }

  /** After any run of insertions, index i is the i-th newest of them while there are that many,
      and the fill value beyond. */
  lemma {:induction false} ViewIsTheHistory<T>(n: nat, fill: T, vals: seq<T>, i: nat)
    requires n > 0 && i < n
    ensures AfterInserts(n, fill, vals)[i] == if i < |vals| then vals[|vals| - 1 - i] else fill
  {
    if vals != [] {
      var before := vals[..|vals| - 1];
      var view := AfterInserts(n, fill, before);
      if i > 0 {
        ViewIsTheHistory(n, fill, before, i - 1);
        assert Pushed(view, vals[|vals| - 1])[i] == view[i - 1];
        assert i < |vals| ==> before[|before| - 1 - (i - 1)] == vals[|vals| - 1 - i];
      }
    }
  }
}
