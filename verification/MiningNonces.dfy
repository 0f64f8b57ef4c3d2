/** The nonces that are hashed, over all threads of a run: each is the one its thread drew last, and
    no two drawn within 2^18 draws of each other are equal. */
module MiningNonces {
  import opened Words
  import opened MiningProtocol
  import opened MiningSafety

  const CHUNKS: nat := 0x4_0000

  /** The last step of miner m before point i, or -1. */
  function LastStep(r: Run, m: nat, i: nat): (x: int)
    requires i <= |r.labels|
    ensures -1 <= x < i
    ensures x >= 0 ==> r.labels[x] == Mine(m)
    ensures forall y :: x < y < i ==> r.labels[y] != Mine(m)
  {
    if i == 0 then -1 else if r.labels[i - 1] == Mine(m) then i - 1 else LastStep(r, m, i - 1)
  }

  /** The fetch_add: the step takes the counter's value and moves the counter on by a chunk. */
  predicate FetchesAt(r: Run, x: nat, m: nat)
    requires Steps(r) && x < |r.labels|
  {
    var s, t := r.states[x], r.states[x + 1];
    && r.labels[x] == Mine(m) && m < |s.miners| && s.miners[m].pc.MDraw?
    && t.nonce == W32(s.nonce + NONCE_CHUNK) && t.draws == s.draws + [Draw(m, s.nonce)]
  }

  /** The nonce a miner hashes is the counter's value at its latest step, which was a draw. */
  lemma {:induction false} HashesItsLatestDraw(r: Run, m: nat, i: nat)
    requires IsRun(r) && i < |r.states| && m < |r.states[i].miners| && r.states[i].miners[m].pc.MHash?
    ensures var x := LastStep(r, m, i);
      && x >= 0 && FetchesAt(r, x, m)
      && r.states[i].miners[m].pc.nonce == r.states[x].nonce
      && r.states[i].miners[m].pc.j == r.states[x].miners[m].pc.j
  {
    if i > 0 {
      var s, l := r.states[i - 1], r.labels[i - 1];
      assert Enabled(s, l) && r.states[i] == Apply(s, l);
      StepKeepsKinds(s, l);
      if l == Mine(m) {
        EveryHashDrawsAChunk(r, i - 1);
        MineFrame(s, m, Rx);
      } else {
        if l.Mine? { MineFrame(s, l.m, Rx); }
        HashesItsLatestDraw(r, m, i - 1);
      }
    }
  }

  /** Between hashes a miner keeps the nonce of its last hash; it starts from zero under the lock. */
  lemma {:induction false} LocalNonceIsTheLastHashed(r: Run, m: nat, i: nat)
    requires IsRun(r) && i < |r.states| && m < |r.states[i].miners|
    requires r.states[i].miners[m].pc.MGuard? || r.states[i].miners[m].pc.MDraw?
    ensures var x, pc := LastStep(r, m, i), r.states[i].miners[m].pc;
      && x >= 0 && m < |r.states[x].miners|
      && var before := r.states[x].miners[m].pc;
         if pc.MDraw? then before.MGuard? && before.nonce == pc.nonce
         else (before.MHash? && before.nonce == pc.nonce) || (before.MLock? && pc.nonce == 0)
  {
    if i > 0 {
      var s, l := r.states[i - 1], r.labels[i - 1];
      assert Enabled(s, l) && r.states[i] == Apply(s, l);
      StepKeepsKinds(s, l);
      if l.Mine? { MineFrame(s, l.m, Rx); }
      if l != Mine(m) { LocalNonceIsTheLastHashed(r, m, i - 1); }
    }
  }

  // ------------------------------------------------------------------ exclusivity

  /** Miner m completes a hash at step i. */
  predicate HashAt(r: Run, i: nat, m: nat)
    requires Steps(r)
  {
    i < |r.labels| && Hashes(r.states[i], r.labels[i], m)
  }

  function NonceAt(r: Run, i: nat, m: nat): uint32
    requires Steps(r) && HashAt(r, i, m)
  {
    r.states[i].miners[m].pc.nonce
  }

  /** How many draws there were between the last reset and the one this hash uses. */
  function Serial(r: Run, i: nat, m: nat): nat
    requires Steps(r) && HashAt(r, i, m)
  {
    var x := LastStep(r, m, i);
    if x < 0 then 0 else |r.states[x].draws|
  }

  /** Any two hashes of a run, by any threads, before or after any resets: their draws are different
      ones, and their nonces are equal exactly when as many draws, up to a multiple of 2^18, came
      before both. */
  lemma HashesAreExclusive(r: Run, i: nat, m: nat, j: nat, n: nat)
    requires IsRun(r) && HashAt(r, i, m) && HashAt(r, j, n) && i != j
    ensures LastStep(r, m, i) != LastStep(r, n, j)
    ensures NonceAt(r, i, m) == NonceAt(r, j, n) <==> Serial(r, i, m) % CHUNKS == Serial(r, j, n) % CHUNKS
  {
    HashesItsLatestDraw(r, m, i);
    HashesItsLatestDraw(r, n, j);
    var x, y := LastStep(r, m, i), LastStep(r, n, j);
    EveryHashDrawsAChunk(r, x);
    EveryHashDrawsAChunk(r, y);
    CounterCountsDraws(|r.states[x].draws|);
    CounterCountsDraws(|r.states[y].draws|);
  }

  predicate NoReset(r: Run, a: nat, b: nat)
    requires b <= |r.labels|
  {
    forall i :: a <= i < b ==> r.labels[i] != ResetNonce
  }

  lemma {:induction false} DrawsOnlyGrow(r: Run, a: nat, b: nat)
    requires Steps(r) && a <= b < |r.states| && NoReset(r, a, b)
    ensures |r.states[a].draws| <= |r.states[b].draws|
    decreases b
  {
    if a < b {
      DrawsOnlyGrow(r, a, b - 1);
      assert Enabled(r.states[b - 1], r.labels[b - 1]);
    }
  }

  /** Between two resets, up to 2^18 draws: no two hashes that draw there use the same nonce. */
  lemma FreshHashesDiffer(r: Run, a: nat, b: nat, i: nat, m: nat, j: nat, n: nat)
    requires IsRun(r) && a <= b < |r.states| && NoReset(r, a, b)
    requires |r.states[b].draws| <= |r.states[a].draws| + CHUNKS
    requires i < b && j < b && i != j && HashAt(r, i, m) && HashAt(r, j, n)
    requires a <= LastStep(r, m, i) && a <= LastStep(r, n, j)
    ensures NonceAt(r, i, m) != NonceAt(r, j, n)
  {
    HashesAreExclusive(r, i, m, j, n);
    SerialInInterval(r, a, b, i, m);
    SerialInInterval(r, a, b, j, n);
    var x, y := LastStep(r, m, i), LastStep(r, n, j);
    if x < y {
      SerialsGrow(r, x, y, m, n, i, j);
    } else {
      SerialsGrow(r, y, x, n, m, j, i);
    }
    DifferentResidues(Serial(r, i, m), Serial(r, j, n));
  }

  lemma SerialInInterval(r: Run, a: nat, b: nat, i: nat, m: nat)
    requires IsRun(r) && a <= b < |r.states| && NoReset(r, a, b)
    requires i < b && HashAt(r, i, m) && a <= LastStep(r, m, i)
    ensures |r.states[a].draws| <= Serial(r, i, m) < |r.states[b].draws|
  {
    var x := LastStep(r, m, i);
    HashesItsLatestDraw(r, m, i);
    DrawsOnlyGrow(r, a, x);
    DrawsOnlyGrow(r, x + 1, b);
  }

  lemma SerialsGrow(r: Run, x: nat, y: nat, m: nat, n: nat, i: nat, j: nat)
    requires IsRun(r) && HashAt(r, i, m) && HashAt(r, j, n)
    requires x == LastStep(r, m, i) && y == LastStep(r, n, j) && x < y && NoReset(r, x, y)
    ensures Serial(r, i, m) < Serial(r, j, n)
  {
    HashesItsLatestDraw(r, m, i);
    DrawsOnlyGrow(r, x + 1, y);
  }

  lemma DifferentResidues(p: nat, q: nat)
    requires p != q && p < q + CHUNKS && q < p + CHUNKS
    ensures p % CHUNKS != q % CHUNKS
  {
  }

  /** A hash across a reset, one that drew before it, is its miner's first after the reset. */
  lemma OnlyTheFirstHashIsCarried(r: Run, a: nat, i: nat, j: nat, m: nat)
    requires Steps(r) && a <= i < j && HashAt(r, i, m) && HashAt(r, j, m)
    ensures i < LastStep(r, m, j)
  {
    if LastStep(r, m, j) == i {
      NothingHashesTwice(r, m, i, j);
    }
  }

  lemma {:induction false} NothingHashesTwice(r: Run, m: nat, i: nat, j: nat)
    requires Steps(r) && i < j < |r.states| && HashAt(r, i, m)
    requires forall y :: i < y < j ==> r.labels[y] != Mine(m)
    ensures m < |r.states[j].miners| && !r.states[j].miners[m].pc.MHash?
    decreases j
  {
    var s, l := r.states[j - 1], r.labels[j - 1];
    assert Enabled(s, l) && r.states[j] == Apply(s, l);
    if j > i + 1 { NothingHashesTwice(r, m, i, j - 1); }
    StepKeepsKinds(s, l);
    if l.Mine? { MineFrame(s, l.m, Rx); }
  }

  // ------------------------------------------------------------------ one hash for each draw

  /** Miners that have drawn a nonce and not hashed it yet. */
  function Drawn(miners: seq<Miner>): (c: nat)
    ensures c <= |miners|
  {
    if miners == [] then 0 else Drawn(miners[1..]) + if miners[0].pc.MHash? then 1 else 0
  }

  lemma {:induction false} DrawnAfter(miners: seq<Miner>, m: nat, t: Miner)
    requires m < |miners|
    ensures Drawn(miners[m := t]) + (if miners[m].pc.MHash? then 1 else 0)
      == Drawn(miners) + (if t.pc.MHash? then 1 else 0)
  {
    if m == 0 {
      assert miners[0 := t][1..] == miners[1..];
    } else {
      assert miners[m := t][1..] == miners[1..][m - 1 := t];
      DrawnAfter(miners[1..], m - 1, t);
    }
  }

  /** The hashes all threads complete from point a to point b. */
  function HashCount(r: Run, a: nat, b: nat): nat
    requires Steps(r) && a <= b < |r.states|
    decreases b
  {
    if a == b then 0
    else
      var s, l := r.states[b - 1], r.labels[b - 1];
      HashCount(r, a, b - 1) + if l.Mine? && Hashes(s, l, l.m) then 1 else 0
  }

  /** Between two resets, every draw is hashed once: draws and hashes differ by those under way. */
  lemma {:induction false} EveryDrawIsHashedOnce(r: Run, a: nat, b: nat)
    requires IsRun(r) && a <= b < |r.states| && NoReset(r, a, b)
    ensures |r.states[b].draws| + Drawn(r.states[a].miners)
      == |r.states[a].draws| + HashCount(r, a, b) + Drawn(r.states[b].miners)
    decreases b
  {
    if a < b {
      EveryDrawIsHashedOnce(r, a, b - 1);
      var s, l := r.states[b - 1], r.labels[b - 1];
      assert Enabled(s, l) && r.states[b] == Apply(s, l);
      if l.Mine? {
        EveryHashDrawsAChunk(r, b - 1);
        DrawnAfter(s.miners, l.m, r.states[b].miners[l.m]);
        MineMoves(s, l.m);
      }
    }
  }

  lemma MineMoves(s: State, m: nat)
    requires Enabled(s, Mine(m))
    ensures MineApply(s, m).miners == s.miners[m := MineApply(s, m).miners[m]]
    ensures MineApply(s, m).miners[m].pc == NextPc(s, s.miners[m].kind, s.miners[m].pc)
  {
  }

  /** Over all threads between two resets: as long as hashes and threads together are at most 2^18,
      the hashes that draw there use pairwise different nonces. The threads count because each can sit
      on a draw of its own while the others go round. */
  lemma FewHashesDiffer(r: Run, a: nat, b: nat, i: nat, m: nat, j: nat, n: nat)
    requires IsRun(r) && a <= b < |r.states| && NoReset(r, a, b)
    requires HashCount(r, a, b) + |r.states[b].miners| <= CHUNKS
    requires i < b && j < b && i != j && HashAt(r, i, m) && HashAt(r, j, n)
    requires a <= LastStep(r, m, i) && a <= LastStep(r, n, j)
    ensures NonceAt(r, i, m) != NonceAt(r, j, n)
  {
    EveryDrawIsHashedOnce(r, a, b);
    FreshHashesDiffer(r, a, b, i, m, j, n);
  }
}
