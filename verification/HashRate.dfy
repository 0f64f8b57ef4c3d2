/** The hash log of a miner and the rates the executor computes from it. Doubles are modelled as
    reals; the 64-bit counters wrap. */
module HashRate {
  import opened Words
  import opened RingBuffers

  const LOG_SIZE: nat := 8192

  /** A negative time marks a record made while the thread was not hashing; zero, one never made. */
  datatype HashRec = HashRec(time: int, hashes: int)

  type Log = seq<HashRec>

  class MinerLog {
    const hashLog: RingBuffer<HashRec>
    var isHashing: bool
    var hashCount: int

    ghost predicate Valid()
      reads this, hashLog, hashLog.data
    {
      hashLog.Valid() && hashLog.size == LOG_SIZE
    }

    constructor ()
      ensures Valid() && fresh(hashLog) && fresh(hashLog.data) && !isHashing && hashCount == 0
      ensures hashLog.size == 8192 && hashLog.view == AfterInserts(8192, HashRec(0, 0), [])
    {
      var log := new RingBuffer(LOG_SIZE);
      hashLog, isHashing, hashCount := log, false, 0;
      new;
      hashLog.Fill(HashRec(0, 0));
    }

    method RecordHashes(timeNow: int)
      requires Valid()
      modifies hashLog`pos, hashLog`view, hashLog.data
      ensures Valid()
      ensures hashLog.view
        == Pushed(old(hashLog.view), HashRec(if isHashing then timeNow else -timeNow, hashCount))
    {
      var time := timeNow;
      if !isHashing {
        time := -time;
      }
      hashLog.Insert(HashRec(time, hashCount));
    }
  }

  // ------------------------------------------------------------------ windows of the log

  /** The number of records made: the log ends at the first record with time 0. */
  function LogEnd(log: Log): (e: nat)
    ensures e <= |log|
    ensures forall i :: 0 <= i < e ==> log[i].time != 0
    ensures e < |log| ==> log[e].time == 0
  {
    if log == [] || log[0].time == 0 then 0 else 1 + LogEnd(log[1..])
  }

  /** The newest i records were made. */
  predicate Made(log: Log, i: nat) {
    i <= |log| && forall j :: 0 <= j < i ==> log[j].time != 0
  }

  lemma LogEndIsFirst(log: Log, e: nat)
    requires Made(log, e) && (e < |log| ==> log[e].time == 0)
    ensures e == LogEnd(log)
  {
  }

  lemma MadeIsBeforeEnd(log: Log, i: nat)
    requires Made(log, i)
    ensures i <= LogEnd(log)
  {
  }

  /** Records i - 1 and i were both made while hashing. */
  predicate Active(log: Log, i: nat)
    requires 0 < i < |log|
  {
    log[i - 1].time > 0 && log[i].time > 0
  }

  /** Active time and hashes of the newest i + 1 records, as the 64-bit counters hold them. */
  function ActiveTime(log: Log, i: nat): uint64
    requires i < |log| || i == 0
  {
    if i == 0 then 0
    else if Active(log, i) then W64(ActiveTime(log, i - 1) + W64(log[i - 1].time - log[i].time))
    else ActiveTime(log, i - 1)
  }

  function ActiveHashes(log: Log, i: nat): uint64
    requires i < |log| || i == 0
  {
    if i == 0 then 0
    else if Active(log, i) then W64(ActiveHashes(log, i - 1) + W64(log[i - 1].hashes - log[i].hashes))
    else ActiveHashes(log, i - 1)
  }

  /** The newest k + 1 records are the shortest prefix whose active time exceeds the period. */
  ghost predicate IsCutoff(log: Log, periodMs: uint64, k: nat) {
    && k < LogEnd(log) && ActiveTime(log, k) > periodMs
    && forall i :: 0 <= i < k ==> ActiveTime(log, i) <= periodMs
  }

  /** Hashes per second over a time in milliseconds. */
  function Rate(hashes: int, timeMs: int): (hps: real)
    requires timeMs != 0
    ensures hps * timeMs as real == 1000.0 * hashes as real
  {
    (hashes as real / timeMs as real) * 1000.0
  }

  /** A record of the log, by its age. */
  method At(hashLog: RingBuffer<HashRec>, i: nat) returns (rec: HashRec)
    requires hashLog.Valid() && hashLog.size == LOG_SIZE && i < LOG_SIZE
    ensures |hashLog.view| == LOG_SIZE && rec == hashLog.view[i]
  {
    rec := hashLog.Get(i);
  }

  /** The loop of get_hashrate before record i: both sums, and no prefix over the period yet. */
  ghost predicate Summed(log: Log, periodMs: uint64, i: nat, hashCount: uint64, timeCountMs: uint64) {
    && 0 < i && Made(log, i)
    && timeCountMs == ActiveTime(log, i - 1) && hashCount == ActiveHashes(log, i - 1)
    && forall j :: 0 <= j < i ==> ActiveTime(log, j) <= periodMs
  }

  lemma SumsStart(log: Log, periodMs: uint64)
    requires Made(log, 1)
    ensures Summed(log, periodMs, 1, 0, 0)
  {
  }

  lemma SumsSkip(log: Log, periodMs: uint64, i: nat, hashCount: uint64, timeCountMs: uint64)
    requires Summed(log, periodMs, i, hashCount, timeCountMs)
    requires i < |log| && log[i].time != 0 && !Active(log, i)
    ensures Summed(log, periodMs, i + 1, hashCount, timeCountMs)
  {
  }

  lemma SumsAdd(log: Log, periodMs: uint64, i: nat, hashCount: uint64, timeCountMs: uint64)
    requires Summed(log, periodMs, i, hashCount, timeCountMs)
    requires i < |log| && log[i].time != 0 && Active(log, i)
    ensures var time := W64(timeCountMs + W64(log[i - 1].time - log[i].time));
      var hashes := W64(hashCount + W64(log[i - 1].hashes - log[i].hashes));
      && time == ActiveTime(log, i) && hashes == ActiveHashes(log, i)
      && (if time > periodMs then IsCutoff(log, periodMs, i)
          else Summed(log, periodMs, i + 1, hashes, time))
  {
    MadeIsBeforeEnd(log, i + 1);
  }

  lemma SumsEnd(log: Log, periodMs: uint64, i: nat, hashCount: uint64, timeCountMs: uint64)
    requires Summed(log, periodMs, i, hashCount, timeCountMs) && (i < |log| ==> log[i].time == 0)
    ensures forall k: nat :: k < LogEnd(log) ==> ActiveTime(log, k) <= periodMs
  {
    LogEndIsFirst(log, i);
  }

  method GetHashrate(hashLog: RingBuffer<HashRec>, periodS: uint64) returns (hps: real)
    requires hashLog.Valid() && hashLog.size == LOG_SIZE
    ensures var log, period := hashLog.view, W64(periodS * 1000);
      || (exists k :: IsCutoff(log, period, k) && hps == Rate(ActiveHashes(log, k), ActiveTime(log, k)))
      || (hps == 0.0 && forall k: nat :: k < LogEnd(log) ==> ActiveTime(log, k) <= period)
  {
    ghost var log := hashLog.view;
    var newest := At(hashLog, 0);
    if newest.time == 0 {
      LogEndIsFirst(log, 0);
      return 0.0;
    }
    var periodMs := W64(periodS * 1000);
    var hashCount: uint64, timeCountMs: uint64 := 0, 0;
    SumsStart(log, periodMs);
    var i := 1;
    while i < hashLog.size
      invariant 1 <= i <= hashLog.size && Summed(log, periodMs, i, hashCount, timeCountMs)
    {
      var older := At(hashLog, i);
      if older.time == 0 {
        break;
      }
      var newer := At(hashLog, i - 1);
      if newer.time > 0 && older.time > 0 {
        SumsAdd(log, periodMs, i, hashCount, timeCountMs);
        var timeDelta := newer.time - older.time;
        timeCountMs := W64(timeCountMs + W64(timeDelta));
        hashCount := W64(hashCount + W64(newer.hashes - older.hashes));
        if timeCountMs > periodMs {
          return Rate(hashCount, timeCountMs);
        }
      } else {
        SumsSkip(log, periodMs, i, hashCount, timeCountMs);
      }
      i := i + 1;
    }
    SumsEnd(log, periodMs, i, hashCount, timeCountMs);
    hps := 0.0;
  }

  /** The cut-off is unique, so the contract of GetHashrate determines its result. */
  lemma CutoffIsUnique(log: Log, periodMs: uint64, j: nat, k: nat)
    requires IsCutoff(log, periodMs, j) && IsCutoff(log, periodMs, k)
    ensures j == k
  {
  }

  // ------------------------------------------------------------------ what the average means

  /** No idle record among the newest k + 1. */
  predicate NoIdle(log: Log, k: nat) {
    k < |log| && forall i :: 0 <= i <= k ==> log[i].time > 0
  }

  /** Times and counts only grow, within the range of a 64-bit integer. */
  predicate Monotone(log: Log, k: nat) {
    && NoIdle(log, k)
    && log[0].time < TWO64 / 2 && 0 <= log[k].hashes && log[0].hashes < TWO64 / 2
    && forall i :: 0 < i <= k ==>
         log[i].time <= log[i - 1].time && log[i].hashes <= log[i - 1].hashes
  }

  /** Without idle records the sums telescope to the end points, even if they wrap. */
  lemma {:induction false} Telescopes(log: Log, k: nat)
    requires NoIdle(log, k)
    ensures ActiveTime(log, k) == W64(log[0].time - log[k].time)
    ensures ActiveHashes(log, k) == W64(log[0].hashes - log[k].hashes)
  {
    if k > 0 {
      Telescopes(log, k - 1);
      WrapAdds(log[0].time - log[k - 1].time, log[k - 1].time - log[k].time);
      WrapAdds(log[0].hashes - log[k - 1].hashes, log[k - 1].hashes - log[k].hashes);
    }
  }

  lemma WrapAdds(a: int, b: int)
    ensures W64(W64(a) + W64(b)) == W64(a + b)
  {
  }

  lemma SmallStays(x: int)
    requires 0 <= x < TWO64
    ensures W64(x) == x
  {
  }

  lemma {:induction false} StepsDown(log: Log, k: nat, p: nat, i: nat)
    requires Monotone(log, k) && p <= i <= k
    ensures log[i].time <= log[p].time && log[i].hashes <= log[p].hashes
    decreases i
  {
    if p < i {
      StepsDown(log, k, p, i - 1);
    }
  }

  lemma DifferencesFit(log: Log, k: nat, p: nat, i: nat)
    requires Monotone(log, k) && p <= i <= k
    ensures log[p].time >= log[i].time && W64(log[p].time - log[i].time) == log[p].time - log[i].time
    ensures log[p].hashes >= log[i].hashes && W64(log[p].hashes - log[i].hashes) == log[p].hashes - log[i].hashes
  {
    StepsDown(log, k, 0, p);
    StepsDown(log, k, p, i);
    StepsDown(log, k, i, k);
    SmallStays(log[p].time - log[i].time);
    SmallStays(log[p].hashes - log[i].hashes);
  }

  /** On a monotone stretch the average is the difference quotient of its end points. */
  lemma AverageIsDifferenceQuotient(log: Log, k: nat)
    requires Monotone(log, k)
    ensures ActiveTime(log, k) == log[0].time - log[k].time
    ensures ActiveHashes(log, k) == log[0].hashes - log[k].hashes
  {
    assert W64(log[0].time - log[k].time) == log[0].time - log[k].time
        && W64(log[0].hashes - log[k].hashes) == log[0].hashes - log[k].hashes by {
      DifferencesFit(log, k, 0, k);
    }
    Telescopes(log, k);
  }

  /** Segment i, cross-multiplied: is its rate at least / at most num / den? */
  predicate SegmentAtLeast(log: Log, i: nat, num: int, den: int)
    requires 0 < i < |log|
  {
    (log[i - 1].hashes - log[i].hashes) * den >= num * (log[i - 1].time - log[i].time)
  }

  predicate SegmentAtMost(log: Log, i: nat, num: int, den: int)
    requires 0 < i < |log|
  {
    (log[i - 1].hashes - log[i].hashes) * den <= num * (log[i - 1].time - log[i].time)
  }

  /** Whatever the miner was doing, time went on and the count did not go back; all within the range
      of a 64-bit integer. */
  predicate Ordered(log: Log, k: nat) {
    && Made(log, k + 1)
    && Age(log[0]) < TWO64 / 2 && 0 <= log[k].hashes && log[0].hashes < TWO64 / 2
    && forall i :: 0 < i <= k ==> Age(log[i]) <= Age(log[i - 1]) && log[i].hashes <= log[i - 1].hashes
  }

  /** The time of a record, without the mark of an idle thread. */
  function Age(rec: HashRec): nat { if rec.time < 0 then -rec.time else rec.time }

  /** Plain sums over the active segments of the newest k + 1 records. */
  function TimeSum(log: Log, k: nat): int
    requires k < |log| || k == 0
  {
    if k == 0 then 0 else TimeSum(log, k - 1) + if Active(log, k) then log[k - 1].time - log[k].time else 0
  }

  function HashSum(log: Log, k: nat): int
    requires k < |log| || k == 0
  {
    if k == 0 then 0 else HashSum(log, k - 1) + if Active(log, k) then log[k - 1].hashes - log[k].hashes else 0
  }

  /** In an ordered log the counters do not wrap: they hold the plain sums. */
  lemma {:induction false} SumsAreExact(log: Log, k: nat, i: nat)
    requires Ordered(log, k) && i <= k
    ensures 0 <= TimeSum(log, i) <= Age(log[0]) - Age(log[i]) && ActiveTime(log, i) == TimeSum(log, i)
    ensures 0 <= HashSum(log, i) <= log[0].hashes - log[i].hashes && ActiveHashes(log, i) == HashSum(log, i)
  {
    if i > 0 {
      SumsAreExact(log, k, i - 1);
      CountsStayPositive(log, k, i);
      if Active(log, i) {
        SmallStays(log[i - 1].time - log[i].time);
        SmallStays(log[i - 1].hashes - log[i].hashes);
        SmallStays(TimeSum(log, i));
        SmallStays(HashSum(log, i));
      }
    }
  }

  lemma {:induction false} CountsStayPositive(log: Log, k: nat, i: nat)
    requires Ordered(log, k) && i <= k
    ensures log[i].hashes >= 0
    decreases k - i
  {
    if i < k { CountsStayPositive(log, k, i + 1); }
  }

  lemma {:induction false} AllSegmentsAbove(log: Log, k: nat, num: int, den: int)
    requires k < |log| && forall i :: 0 < i <= k && Active(log, i) ==> !SegmentAtMost(log, i, num, den)
    ensures HashSum(log, k) * den > num * TimeSum(log, k) || forall i :: 0 < i <= k ==> !Active(log, i)
    ensures HashSum(log, k) * den >= num * TimeSum(log, k)
  {
    if k > 0 {
      AllSegmentsAbove(log, k - 1, num, den);
      if Active(log, k) {
        assert !SegmentAtMost(log, k, num, den);
        Added(HashSum(log, k - 1), log[k - 1].hashes - log[k].hashes, den);
        Added(TimeSum(log, k - 1), log[k - 1].time - log[k].time, num);
      }
    }
  }

  lemma {:induction false} AllSegmentsBelow(log: Log, k: nat, num: int, den: int)
    requires k < |log| && forall i :: 0 < i <= k && Active(log, i) ==> !SegmentAtLeast(log, i, num, den)
    ensures HashSum(log, k) * den < num * TimeSum(log, k) || forall i :: 0 < i <= k ==> !Active(log, i)
    ensures HashSum(log, k) * den <= num * TimeSum(log, k)
  {
    if k > 0 {
      AllSegmentsBelow(log, k - 1, num, den);
      if Active(log, k) {
        assert !SegmentAtLeast(log, k, num, den);
        Added(HashSum(log, k - 1), log[k - 1].hashes - log[k].hashes, den);
        Added(TimeSum(log, k - 1), log[k - 1].time - log[k].time, num);
      }
    }
  }

  lemma Added(a: int, b: int, x: int)
    ensures (a + b) * x == a * x + b * x && x * (a + b) == x * a + x * b
  {
  }

  lemma {:induction false} NoneActive(log: Log, k: nat)
    requires k < |log| && forall i :: 0 < i <= k ==> !Active(log, i)
    ensures TimeSum(log, k) == 0
  {
    if k > 0 { NoneActive(log, k - 1); }
  }

  /** The reported rate lies between the rates of its slowest and fastest active segments, whatever
      idle time the log holds between them. */
  lemma RateIsBetweenItsSegments(log: Log, k: nat)
    requires Ordered(log, k) && ActiveTime(log, k) > 0
    ensures var h, t := ActiveHashes(log, k), ActiveTime(log, k);
      && (exists slow :: 0 < slow <= k && Active(log, slow) && SegmentAtMost(log, slow, h, t))
      && (exists fast :: 0 < fast <= k && Active(log, fast) && SegmentAtLeast(log, fast, h, t))
  {
    SumsAreExact(log, k, k);
    var h, t := ActiveHashes(log, k), ActiveTime(log, k);
    if forall i :: 0 < i <= k ==> !Active(log, i) { NoneActive(log, k); }
    if forall i :: 0 < i <= k && Active(log, i) ==> !SegmentAtMost(log, i, h, t) { AllSegmentsAbove(log, k, h, t); }
    if forall i :: 0 < i <= k && Active(log, i) ==> !SegmentAtLeast(log, i, h, t) { AllSegmentsBelow(log, k, h, t); }
  }

  // ------------------------------------------------------------------ the peak

  const WINDOW_MS: nat := 10000

  /** `size_t delta` between two records: negative differences wrap. */
  function Span(log: Log, p: nat, i: nat): uint64
    requires p < |log| && i < |log|
  {
    W64(log[p].time - log[i].time)
  }

  /** From p, every record before `stop` is within the window. */
  predicate WithinWindow(log: Log, p: nat, stop: nat) {
    stop <= |log| && forall i :: p < i < stop ==> Span(log, p, i) <= 10_000
  }

  /** i is the first record over the window length from p: together they bound a window. */
  predicate IsWindow(log: Log, p: nat, i: nat) {
    p < i < |log| && Span(log, p, i) > 10_000 && WithinWindow(log, p, i)
  }

  /** Adjacent windows from the newest record on, until no further record is over the length. */
  ghost predicate IsWindowing(log: Log, cuts: seq<nat>, end: nat) {
    && end <= |log| && cuts != [] && cuts[0] == 0
    && (forall w :: 0 < w < |cuts| ==> cuts[w] < end && IsWindow(log, cuts[w - 1], cuts[w]))
    && WithinWindow(log, cuts[|cuts| - 1], end)
  }

  function WindowRate(log: Log, p: nat, i: nat): real
    requires IsWindow(log, p, i)
  {
    Rate(log[p].hashes - log[i].hashes, Span(log, p, i))
  }

  /** The fastest window's rate, or zero if no window is faster. */
  ghost predicate IsPeak(log: Log, cuts: seq<nat>, peak: real)
    requires forall w :: 0 < w < |cuts| ==> IsWindow(log, cuts[w - 1], cuts[w])
  {
    && peak >= 0.0
    && (forall w :: 0 < w < |cuts| ==> WindowRate(log, cuts[w - 1], cuts[w]) <= peak)
    && (peak == 0.0 || exists w :: 0 < w < |cuts| && WindowRate(log, cuts[w - 1], cuts[w]) == peak)
  }

  /** The loop of get_hashrate_peak before record i. */
  ghost predicate PeakSoFar(log: Log, cuts: seq<nat>, i: nat, peak: real) {
    Made(log, i) && IsWindowing(log, cuts, i) && IsPeak(log, cuts, peak)
  }

  lemma PeakStays(log: Log, cuts: seq<nat>, i: nat, peak: real)
    requires PeakSoFar(log, cuts, i, peak) && i < |log| && log[i].time != 0
    requires Span(log, cuts[|cuts| - 1], i) <= WINDOW_MS
    ensures PeakSoFar(log, cuts, i + 1, peak)
  {
    assert WithinWindow(log, cuts[|cuts| - 1], i + 1);
  }

  lemma PeakEnds(log: Log, cuts: seq<nat>, i: nat, peak: real)
    requires PeakSoFar(log, cuts, i, peak) && (i < |log| ==> log[i].time == 0)
    ensures IsWindowing(log, cuts, LogEnd(log)) && IsPeak(log, cuts, peak)
  {
    LogEndIsFirst(log, i);
  }

  method GetHashratePeak(hashLog: RingBuffer<HashRec>) returns (peak: real)
    requires hashLog.Valid() && hashLog.size == LOG_SIZE
    ensures var log := hashLog.view;
      exists cuts :: IsWindowing(log, cuts, LogEnd(log)) && IsPeak(log, cuts, peak)
  {
    ghost var log := hashLog.view;
    var p := 0;
    ghost var cuts := [0];
    peak := 0.0;
    var i := 0;
    while i < hashLog.size
      invariant 0 <= i <= hashLog.size && p < hashLog.size && |cuts| > 0 && p == cuts[|cuts| - 1]
      invariant PeakSoFar(log, cuts, i, peak)
    {
      var rec := At(hashLog, i);
      if rec.time == 0 {
        break;
      }
      var start := At(hashLog, p);
      var delta := W64(start.time - rec.time);
      if delta > WINDOW_MS {
        var hps := Rate(start.hashes - rec.hashes, delta);
        ghost var best, more := ExtendPeak(log, cuts, i, peak, hps);
        if hps > peak {
          peak := hps;
        }
        p := i;
        cuts := more;
      } else {
        PeakStays(log, cuts, i, peak);
      }
      i := i + 1;
    }
    PeakEnds(log, cuts, i, peak);
  }

  lemma ExtendPeak(log: Log, cuts: seq<nat>, i: nat, peak: real, hps: real) returns (best: real, more: seq<nat>)
    requires PeakSoFar(log, cuts, i, peak) && i < |log| && log[i].time != 0
    requires Span(log, cuts[|cuts| - 1], i) > WINDOW_MS
    requires var p := cuts[|cuts| - 1]; hps == Rate(log[p].hashes - log[i].hashes, Span(log, p, i))
    ensures |more| > 0 && more[|more| - 1] == i && best == (if hps > peak then hps else peak)
    ensures PeakSoFar(log, more, i + 1, best)
  {
    LastCutIsBefore(log, cuts, i);
    best, more := if hps > peak then hps else peak, cuts + [i];
    assert IsWindow(log, cuts[|cuts| - 1], i);
    forall w | 0 < w < |more|
      ensures more[w] < i + 1 && IsWindow(log, more[w - 1], more[w])
    {
      assert w < |cuts| ==> more[w - 1] == cuts[w - 1] && more[w] == cuts[w];
    }
    ExtendMaximum(log, cuts, i, peak, hps);
  }

  lemma LastCutIsBefore(log: Log, cuts: seq<nat>, i: nat)
    requires IsWindowing(log, cuts, i) && i < |log| && Span(log, cuts[|cuts| - 1], i) > 0
    ensures cuts[|cuts| - 1] < i
  {
  }

  lemma ExtendMaximum(log: Log, cuts: seq<nat>, i: nat, peak: real, hps: real)
    requires cuts != [] && forall w :: 0 < w < |cuts + [i]| ==> IsWindow(log, (cuts + [i])[w - 1], (cuts + [i])[w])
    requires forall w :: 0 < w < |cuts| ==> IsWindow(log, cuts[w - 1], cuts[w])
    requires IsPeak(log, cuts, peak)
    requires IsWindow(log, cuts[|cuts| - 1], i) && hps == WindowRate(log, cuts[|cuts| - 1], i)
    ensures IsPeak(log, cuts + [i], if hps > peak then hps else peak)
  {
    var more, best := cuts + [i], if hps > peak then hps else peak;
    forall w | 0 < w < |more|
      ensures WindowRate(log, more[w - 1], more[w]) <= best
    {
      assert w < |cuts| ==> WindowRate(log, more[w - 1], more[w]) == WindowRate(log, cuts[w - 1], cuts[w]);
    }
    if hps > peak {
      assert WindowRate(log, more[|cuts| - 1], more[|cuts|]) == hps;
    } else if peak != 0.0 {
      var w :| 0 < w < |cuts| && WindowRate(log, cuts[w - 1], cuts[w]) == peak;
      assert WindowRate(log, more[w - 1], more[w]) == peak;
    }
  }

  /** A log has one windowing, so the contract of GetHashratePeak determines its result. */
  lemma {:induction false} WindowingIsUnique(log: Log, a: seq<nat>, b: seq<nat>, end: nat, w: nat)
    requires IsWindowing(log, a, end) && IsWindowing(log, b, end) && w < |a|
    ensures w < |b| && a[w] == b[w]
  {
    if w > 0 {
      WindowingIsUnique(log, a, b, end, w - 1);
      assert IsWindow(log, a[w - 1], a[w]);
      assert w < |b| ==> IsWindow(log, b[w - 1], b[w]);
    }
  }

  lemma PeakIsUnique(log: Log, a: seq<nat>, b: seq<nat>, p: real, q: real)
    requires IsWindowing(log, a, LogEnd(log)) && IsWindowing(log, b, LogEnd(log))
    requires IsPeak(log, a, p) && IsPeak(log, b, q)
    ensures a == b && p == q
  {
    forall w: nat | w < |a| ensures w < |b| && a[w] == b[w] { WindowingIsUnique(log, a, b, LogEnd(log), w); }
    WindowingIsUnique(log, a, b, LogEnd(log), |a| - 1);
    WindowingIsUnique(log, b, a, LogEnd(log), |b| - 1);
  }

  /** Over the whole span its windows cover, a monotone log averages no more than the peak. */
  lemma PeakIsAtLeastAverage(log: Log, cuts: seq<nat>, end: nat, peak: real)
    requires IsWindowing(log, cuts, end) && IsPeak(log, cuts, peak)
    requires cuts[|cuts| - 1] > 0 && Monotone(log, cuts[|cuts| - 1])
    ensures var last := cuts[|cuts| - 1];
      Span(log, 0, last) > 0 && Rate(log[0].hashes - log[last].hashes, log[0].time - log[last].time) <= peak
  {
    var last := cuts[|cuts| - 1];
    CoveredHashes(log, cuts, peak, |cuts| - 1);
    assert IsWindow(log, cuts[0], cuts[1]);
    CutsGrow(log, cuts, 1, |cuts| - 1);
    DifferencesFit(log, last, 0, cuts[1]);
    StepsDown(log, last, cuts[1], last);
    DifferencesFit(log, last, 0, last);
    QuotientBound(log[0].hashes - log[last].hashes, log[0].time - log[last].time, peak);
  }

  /** Hashes done over some time, at no more than the peak rate. */
  predicate Within(hashes: int, time: int, peak: real) {
    1000.0 * hashes as real <= peak * time as real
  }

  lemma {:induction false} CoveredHashes(log: Log, cuts: seq<nat>, peak: real, w: nat)
    requires cuts != [] && cuts[0] == 0 && w < |cuts| && Monotone(log, cuts[|cuts| - 1])
    requires forall v :: 0 < v < |cuts| ==> IsWindow(log, cuts[v - 1], cuts[v])
    requires IsPeak(log, cuts, peak)
    ensures cuts[w] <= cuts[|cuts| - 1]
    ensures Within(log[0].hashes - log[cuts[w]].hashes, log[0].time - log[cuts[w]].time, peak)
  {
    CutsGrow(log, cuts, w, |cuts| - 1);
    if w > 0 {
      CoveredHashes(log, cuts, peak, w - 1);
      WindowIsWithin(log, cuts[|cuts| - 1], cuts[w - 1], cuts[w], peak);
      JoinWithin(log[0].hashes, log[cuts[w - 1]].hashes, log[cuts[w]].hashes,
                 log[0].time, log[cuts[w - 1]].time, log[cuts[w]].time, peak);
    }
  }

  lemma WindowIsWithin(log: Log, k: nat, p: nat, i: nat, peak: real)
    requires Monotone(log, k) && i <= k && IsWindow(log, p, i) && WindowRate(log, p, i) <= peak
    ensures Within(log[p].hashes - log[i].hashes, log[p].time - log[i].time, peak)
  {
    DifferencesFit(log, k, p, i);
    ProductBound(log[p].hashes - log[i].hashes, log[p].time - log[i].time, peak);
  }

  lemma JoinWithin(a: int, b: int, c: int, x: int, y: int, z: int, peak: real)
    requires Within(a - b, x - y, peak) && Within(b - c, y - z, peak)
    ensures Within(a - c, x - z, peak)
  {
    RealJoined(x - y, y - z, peak);
  }

  lemma {:induction false} CutsGrow(log: Log, cuts: seq<nat>, v: nat, w: nat)
    requires v <= w < |cuts| && forall u :: 0 < u < |cuts| ==> IsWindow(log, cuts[u - 1], cuts[u])
    ensures cuts[v] <= cuts[w]
    decreases w
  {
    if v < w {
      CutsGrow(log, cuts, v, w - 1);
      assert IsWindow(log, cuts[w - 1], cuts[w]);
    }
  }

  lemma ProductBound(h: int, t: int, peak: real)
    requires t > 0 && Rate(h, t) <= peak
    ensures Within(h, t, peak)
  {
    var q := h as real / t as real;
    assert q * t as real == h as real;
    assert (q * 1000.0) * t as real <= peak * t as real;
  }

  lemma QuotientBound(h: int, t: int, peak: real)
    requires t > 0 && Within(h, t, peak)
    ensures Rate(h, t) <= peak
  {
    var q := h as real / t as real;
    assert q * t as real == h as real;
    if q * 1000.0 > peak {
      assert (q * 1000.0) * t as real > peak * t as real;
    }
  }

  lemma RealJoined(a: int, b: int, x: real)
    ensures x * a as real + x * b as real == x * (a + b) as real
  {
  }
}
