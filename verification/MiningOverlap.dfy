/** Exactly which rebuilds may start: the condition of calm runs is necessary as well as sufficient.
    A rebuild that starts too early is wrong by itself, with nothing new from the pool. */
module MiningOverlap {
  import opened Words
  import opened Vector32
  import opened MiningProtocol
  import opened MiningSafety
  import opened MiningRebuilds
  import opened MiningSteps
  import opened MiningRaces

  // ------------------------------------------------------------------ miners leaving

  /** Only miners of dataset k have moved. */
  predicate OnlyMined(s: State, t: State, k: Kind) {
    && t.exec == s.exec && t.touched == s.touched && t.jobs == s.jobs
    && Ds(t, k) == Ds(s, k).(readers := Ds(t, k).readers)
    && |t.miners| == |s.miners|
  }

  predicate Stale(s: State, m: nat)
    requires m < |s.miners|
  {
    s.miners[m].pc.MStart? || s.miners[m].pc.j != Current(s)
  }

  /** The steps a miner of an old job has before it, at most. */
  function StepsToStart(pc: MinerPc): nat {
    match pc
    case MStart => 0
    case MCopied(_) => 5
    case MIdleLoop(_) => 1
    case MCheck(_) => 4
    case MCheckJob(_) => 1
    case MLock(_) => 3
    case MGuard(_, _) => 2
    case MDraw(_, _, _) => 4
    case MHash(_, _, _) => 3
    case MUnlock(_) => 1
  }

  /** A miner of an old job gets back to its start, releasing the lock if it holds it. */
  lemma Retire(o: State, s: State, m: nat, k: Kind, limit: Limit) returns (t: State)
    requires Leads(o, s, k, limit) && LockInv(s, k) && JobsInv(s)
    requires m < |s.miners| && s.miners[m].kind == k && Stale(s, m)
    requires Holding(s.miners[m].pc) || Ds(s, k).writer == None
    ensures Leads(o, t, k, limit) && OnlyMined(s, t, k) && LockInv(t, k) && JobsInv(t)
    ensures t.miners == s.miners[m := Miner(k, MStart)] && Ds(t, k).readers == Ds(s, k).readers - {m}
    decreases StepsToStart(s.miners[m].pc)
  {
    if s.miners[m].pc.MStart? {
      t := s;
    } else {
      var u := MineApply(s, m);
      LeadsNext(o, s, Mine(m), u, k, limit);
      MineFrame(s, m, k);
      MineReaders(s, m, k);
      MineKeepsLock(s, k, m);
      StepKeepsJobs(s, Mine(m));
      RetireStep(s, m, k);
      t := Retire(o, u, m, k, limit);
    }
  }

  lemma RetireStep(s: State, m: nat, k: Kind)
    requires JobsInv(s) && m < |s.miners| && s.miners[m].kind == k && Stale(s, m) && !s.miners[m].pc.MStart?
    requires Enabled(s, Mine(m))
    ensures var t, pc := MineApply(s, m), s.miners[m].pc;
      && t.miners == s.miners[m := t.miners[m]] && Stale(t, m)
      && StepsToStart(t.miners[m].pc) < StepsToStart(pc)
      && (Holding(t.miners[m].pc) || !Holding(pc) || pc.MUnlock?)
  {
  }

  /** Readers of old jobs all release the lock. */
  lemma Drain(o: State, s: State, k: Kind, limit: Limit) returns (t: State)
    requires Leads(o, s, k, limit) && LockInv(s, k) && JobsInv(s)
    requires forall m :: m in Ds(s, k).readers ==> m < |s.miners| && Stale(s, m)
    ensures Leads(o, t, k, limit) && OnlyMined(s, t, k) && LockInv(t, k) && JobsInv(t)
    ensures Ds(t, k).readers == {}
    ensures forall m :: 0 <= m < |s.miners| ==>
      t.miners[m] == s.miners[m] || (t.miners[m] == Miner(k, MStart) && s.miners[m].kind == k)
    decreases Ds(s, k).readers
  {
    if m :| m in Ds(s, k).readers {
      var u := Retire(o, s, m, k, limit);
      t := Drain(o, u, k, limit);
    } else {
      t := s;
    }
  }

  // ------------------------------------------------------------------ builders finishing

  function StepsToRelease(pc: BuilderPc): nat {
    match pc
    case Spawned => 5
    case Locked => 4
    case Filling(_) => 3
    case Filled(_) => 2
    case Announced => 1
  }

  /** Nothing has happened to the dataset but a builder's work. */
  predicate OnlyBuilt(d: Dataset, e: Dataset) {
    e.loaded == d.loaded && e.seed == d.seed && e.readers == d.readers && e.spawned == d.spawned
  }

  /** The builder that holds the lock finishes and releases it. */
  lemma Release(o: State, s: State, k: Kind, limit: Limit) returns (t: State)
    requires Leads(o, s, k, limit) && LockInv(s, k)
    ensures Leads(o, t, k, limit) && t == WithDs(s, k, Ds(t, k)) && OnlyBuilt(Ds(s, k), Ds(t, k))
    ensures LockInv(t, k) && Ds(t, k).writer == None
    ensures var d := Ds(s, k);
      Ds(t, k).builders == if d.writer.Some? then d.builders - {d.writer.value} else d.builders
    decreases var d := Ds(s, k);
      if d.writer.Some? && d.writer.value in d.builders then StepsToRelease(d.builders[d.writer.value].pc) else 0
  {
    var d := Ds(s, k);
    if d.writer.None? {
      t := s;
    } else {
      var b := d.writer.value;
      var u := WithDs(s, k, BuildApply(d, k, b));
      LeadsNext(o, s, Build(k, b), u, k, limit);
      BuildKeepsLock(s, k, b);
      t := Release(o, u, k, limit);
      assert Ds(t, k).builders == d.builders - {b};
    }
  }

  // ------------------------------------------------------------------ the executor finishing

  /** From the start of a rebuild to the publication of its job. */
  lemma Finish(o: State, s: State, k: Kind, limit: Limit) returns (t: State)
    requires Leads(o, s, k, limit) && limit != NoOverlap && s.exec.ELoad? && s.exec.k == k
    ensures Leads(o, t, k, limit)
    ensures t.exec == EReady && t.touched == {} && t.miners == s.miners && t.jobs == s.jobs + [s.exec.job]
    ensures Ds(t, k) == Reseeded(Ds(s, k), k, s.exec.job)
  {
    var d, job := Ds(s, k), s.exec.job;
    var s1 := WithDs(s, k, d.(loaded := DatasetId(job, k))).(exec := EInvalidate(k, job), touched := s.touched + {k});
    LeadsNext(o, s, ExecStep, s1, k, limit);
    InvalidatedLeads(o, s1, k, job, k, limit);
    var s2 := WithDs(s1, k, Reseeded(d, k, job)).(exec := AfterAdjust(k, job));
    assert Leads(o, s2, k, limit) by {
      assert Ds(s1, k).(ready := INVALID_ID, seed := if k == Rx then job.seed else Ds(s1, k).seed)
        == d.(loaded := DatasetId(job, k), ready := INVALID_ID, seed := if k == Rx then job.seed else d.seed);
    }
    t := s2;
    if k == Rx {
      t := AdjustTo(s2, Pp, job).(exec := EPublish(job));
      AdjustLeads(s2, Pp, job, k, limit);
      LeadsOn(o, s2, t, k, limit);
    }
    var s3 := t;
    t := s3.(jobs := s3.jobs + [job], exec := EReady, touched := {});
    LeadsNext(o, s3, ExecStep, t, k, limit);
  }

  // ------------------------------------------------------------------ starting too early: ProgPow

  /** ProgPow job b is about to be rebuilt for, with the builder of another epoch still waiting. */
  ghost predicate TooEarly(s: State, b: nat) {
    && CalmInv(s, Pp) && s.exec.ELoad? && s.exec.k == Pp && Uses(s.exec.job, Pp)
    && b in s.pp.builders && s.pp.builders[b].pc == Spawned
  }

  /** Both builders come to wait for a free lock. */
  lemma BothWait(s: State, b: nat) returns (t: State)
    requires TooEarly(s, b)
    ensures Leads(s, t, Pp, NothingNew) && LockInv(t, Pp) && JobsInv(t)
    ensures t.exec == EReady && t.touched == {} && t.jobs == s.jobs + [s.exec.job]
    ensures |t.miners| == |s.miners| && forall m :: 0 <= m < |s.miners| ==>
      t.miners[m].kind == s.miners[m].kind && Stale(t, m)
    ensures t.pp.writer == None && t.pp.readers == {} && t.pp.loaded == s.exec.job.epoch
    ensures s.pp.builders[b].epoch != s.exec.job.epoch && s.pp.spawned != b
    ensures t.pp.builders
      == map[b := s.pp.builders[b], s.pp.spawned := Builder(s.exec.job.epoch, Spawned)]
  {
    var d, n, job := s.pp, s.pp.spawned, s.exec.job;
    assert PendingInv(d, Pp, Outside, Needed(s, Pp), b);
    LeadsNowhere(s, Pp, NothingNew);
    var s1 := Finish(s, s, Pp, NothingNew);
    LeadsKeepsLock(s, s1, Pp, NothingNew);
    var s2 := Release(s, s1, Pp, NothingNew);
    LeadsKeepsLock(s, s2, Pp, NothingNew);
    assert forall m :: 0 <= m < |s.miners| ==> JobOf(s.miners[m].pc) < |s.jobs|;
    t := Drain(s, s2, Pp, NothingNew);
    forall c | c in t.pp.builders
      ensures c == b || c == n
    {
      assert c != n ==> PendingInv(d, Pp, Outside, Needed(s, Pp), c);
    }
  }

  lemma {:induction false} ConnectsKeepsLock(r: Run, s: State, t: State, k: Kind, limit: Limit, i: nat)
    requires Connects(r, s, t, k, limit) && LockInv(s, k) && JobsInv(s) && i < |r.states|
    ensures LockInv(r.states[i], k) && JobsInv(r.states[i])
  {
    if i > 0 {
      ConnectsKeepsLock(r, s, t, k, limit, i - 1);
      assert Enabled(r.states[i - 1], r.labels[i - 1]);
      StepKeepsLock(r.states[i - 1], r.labels[i - 1], k);
      StepKeepsJobs(r.states[i - 1], r.labels[i - 1]);
    }
  }

  lemma LeadsKeepsLock(s: State, t: State, k: Kind, limit: Limit)
    requires Leads(s, t, k, limit) && LockInv(s, k) && JobsInv(s)
    ensures LockInv(t, k) && JobsInv(t)
  {
    var r: Run :| Connects(r, s, t, k, limit);
    ConnectsKeepsLock(r, s, t, k, limit, |r.labels|);
  }

  /** The newer builder first, then the check, then the older builder, then the lock. */
  lemma TooEarlyHashesWrong(s: State, b: nat, m: nat) returns (wrong: State)
    requires TooEarly(s, b) && m < |s.miners| && s.miners[m].kind == Pp
    ensures Leads(s, wrong, Pp, NothingNew) && WrongHash(wrong, Pp, m, true)
  {
    var n, job := s.pp.spawned, s.exec.job;
    var s1 := BothWait(s, b);
    var s2 := Retire(s, s1, m, Pp, NothingNew);
    var s3 := ThenRebuild(s, s2, Pp, n, NothingNew);
    var s4 := ThenCheck(s, s3, m, Pp, NothingNew);
    assert s4.pp.builders[b] == s.pp.builders[b];
    var s5 := ThenRebuild(s, s4, Pp, b, NothingNew);
    assert s5.pp.contents == Built(EpochKey(s.pp.builders[b].epoch));
    wrong := ThenHash(s, s5, m, Pp, NothingNew);
  }

  lemma TooEarlyLosesARebuild(s: State, b: nat) returns (stalled: State)
    requires TooEarly(s, b)
    ensures Leads(s, stalled, Pp, NothingNew) && Stalled(stalled, Pp)
  {
    var n := s.pp.spawned;
    var s1 := BothWait(s, b);
    var s2 := ThenRebuild(s, s1, Pp, n, NothingNew);
    assert s2.pp.builders[b] == s.pp.builders[b];
    stalled := ThenRebuild(s, s2, Pp, b, NothingNew);
    assert stalled.pp.builders == map[];
  }

  // ------------------------------------------------------------------ starting too early: RandomX

  /** RandomX job b is about to be rebuilt for, with a builder that has not announced. */
  ghost predicate TooEarlyRx(s: State, b: nat) {
    && CalmInv(s, Rx) && s.exec.ELoad? && s.exec.k == Rx && Uses(s.exec.job, Rx)
    && b in s.rx.builders && s.rx.builders[b].pc != Announced
  }

  /** Builder b is filling, or has filled, the dataset from a seed the job does not have. */
  predicate FillsFor(d: Dataset, b: nat, id: nat) {
    && b in d.builders && b < d.spawned && d.writer == Some(b) && d.readers == {}
    && (d.builders[b].pc.Filling? || d.builders[b].pc.Filled?)
    && (d.builders[b].pc.Filled? ==> d.contents == Built(d.builders[b].pc.source))
    && KeyId(d.builders[b].pc.source) != id
  }

  lemma ReadersAreStale(s: State, b: nat)
    requires TooEarlyRx(s, b)
    ensures GetId(s.rx.seed) == s.rx.loaded != GetId(s.exec.job.seed)
    ensures forall m :: m in s.rx.readers ==> m < |s.miners| && Stale(s, m)
  {
    assert BuilderInv(s.rx, Rx, b) && PendingInv(s.rx, Rx, Outside, Needed(s, Rx), b);
    if NewestWaits(s.rx) {
      assert PendingInv(s.rx, Rx, Outside, Needed(s, Rx), s.rx.spawned - 1);
    }
    forall m | m in s.rx.readers
      ensures m < |s.miners| && Stale(s, m)
    {
      assert MinerInv(s, m);
    }
  }

  /** Before the executor goes on, the builder gets to read the old seed. */
  lemma ReadsTheOldSeed(s: State, b: nat) returns (t: State)
    requires TooEarlyRx(s, b)
    ensures Leads(s, t, Rx, NothingNew) && LockInv(t, Rx) && JobsInv(t)
    ensures t.exec == s.exec && t.jobs == s.jobs && |t.miners| == |s.miners|
    ensures forall m :: 0 <= m < |s.miners| ==> t.miners[m].kind == s.miners[m].kind
    ensures FillsFor(t.rx, b, GetId(s.exec.job.seed))
  {
    ReadersAreStale(s, b);
    assert BuilderInv(s.rx, Rx, b);
    LeadsNowhere(s, Rx, NothingNew);
    t := s;
    if s.rx.builders[b].pc == Spawned {
      var s1 := Release(s, s, Rx, NothingNew);
      var s2 := Drain(s, s1, Rx, NothingNew);
      t := WithDs(s2, Rx, BuildApply(s2.rx, Rx, b));
      LeadsNext(s, s2, Build(Rx, b), t, Rx, NothingNew);
      BuildKeepsLock(s2, Rx, b);
    }
    if t.rx.builders[b].pc == Locked {
      var s3 := t;
      t := WithDs(s3, Rx, BuildApply(s3.rx, Rx, b));
      LeadsNext(s, s3, Build(Rx, b), t, Rx, NothingNew);
      BuildKeepsLock(s3, Rx, b);
    }
  }

  /** A builder caught between its two looks at the seed announces the new seed over the old contents. */
  lemma AnnouncesWrong(o: State, s: State, b: nat) returns (t: State)
    requires Leads(o, s, Rx, NothingNew) && LockInv(s, Rx) && JobsInv(s) && FillsFor(s.rx, b, GetId(s.rx.seed))
    ensures Leads(o, t, Rx, NothingNew) && LockInv(t, Rx) && JobsInv(t)
    ensures t == WithDs(s, Rx, t.rx) && t.rx.writer == None && t.rx.ready == GetId(s.rx.seed)
    ensures t.rx.contents == Built(s.rx.builders[b].pc.source)
  {
    var s1 := s;
    if s.rx.builders[b].pc.Filling? {
      s1 := WithDs(s, Rx, BuildApply(s.rx, Rx, b));
      LeadsNext(o, s, Build(Rx, b), s1, Rx, NothingNew);
      BuildKeepsLock(s, Rx, b);
    }
    t := WithDs(s1, Rx, AfterAnnounce(s1.rx, Rx, b));
    AnnounceLeads(s1, Rx, b, Rx, NothingNew);
    LeadsOn(o, s1, t, Rx, NothingNew);
    LeadsByOne(s1, Build(Rx, b), WithDs(s1, Rx, BuildApply(s1.rx, Rx, b)), Rx, NothingNew);
    assert Leads(s1, t, Rx, NothingNew);
    LeadsKeepsLock(s1, t, Rx, NothingNew);
  }

  lemma TooEarlyHashesWrongRx(s: State, b: nat, m: nat) returns (wrong: State)
    requires TooEarlyRx(s, b) && m < |s.miners| && s.miners[m].kind == Rx
    ensures Leads(s, wrong, Rx, NothingNew) && WrongHash(wrong, Rx, m, true)
  {
    var job := s.exec.job;
    var s1 := ReadsTheOldSeed(s, b);
    assert JobOf(s1.miners[m].pc) < |s1.jobs|;
    var s2 := Finish(s, s1, Rx, NothingNew);
    LeadsKeepsLock(s, s2, Rx, NothingNew);
    assert s2.rx.builders[b] == s1.rx.builders[b];
    var s3 := AnnouncesWrong(s, s2, b);
    var s4 := Retire(s, s3, m, Rx, NothingNew);
    var s5 := ThenCheck(s, s4, m, Rx, NothingNew);
    wrong := ThenHash(s, s5, m, Rx, NothingNew);
  }

  // ------------------------------------------------------------------ exactly when a rebuild may start

  /** The executor is past the start of its rebuild of dataset k, or about to start it rightly. */
  predicate Underway(s: State, k: Kind) {
    || s.exec == EReady || Rebuilding(s.exec, k) || Adjusted(s.exec, k)
    || (s.exec.ELoad? && s.exec.k == k && MayRebuild(Ds(s, k), k))
  }

  lemma MayStillRebuild(d: Dataset, k: Kind, b: nat)
    requires MayRebuild(d, k) && b in d.builders
    ensures MayRebuild(BuildApply(d, k, b), k)
  {
    var e := BuildApply(d, k, b);
    assert forall c :: c in e.builders && c != b ==> e.builders[c] == d.builders[c];
  }

  lemma StepStaysUnderway(s: State, l: Label, k: Kind)
    requires Underway(s, k) && Enabled(s, l) && Allowed(s, l, k, NothingNew)
    ensures Underway(Apply(s, l), k)
  {
    match l {
      case Mine(m) => MineFrame(s, m, k);
      case Build(k', b) => if k' == k && MayRebuild(Ds(s, k), k) { MayStillRebuild(Ds(s, k), k, b); }
      case _ =>
    }
  }

  lemma {:induction false} StaysUnderway(r: Run, s: State, t: State, k: Kind, i: nat)
    requires Connects(r, s, t, k, NothingNew) && CalmInv(s, k) && Underway(s, k) && i < |r.states|
    ensures CalmInv(r.states[i], k) && Underway(r.states[i], k)
  {
    if i > 0 {
      StaysUnderway(r, s, t, k, i - 1);
      assert Enabled(r.states[i - 1], r.labels[i - 1]) && Allowed(r.states[i - 1], r.labels[i - 1], k, NothingNew);
      StepKeepsCalm(r.states[i - 1], r.labels[i - 1], k);
      StepStaysUnderway(r.states[i - 1], r.labels[i - 1], k);
    }
  }

  lemma LeadsStaysUnderway(s: State, t: State, k: Kind)
    requires Leads(s, t, k, NothingNew) && CalmInv(s, k) && Underway(s, k)
    ensures CalmInv(t, k) && Underway(t, k)
  {
    var r: Run :| Connects(r, s, t, k, NothingNew);
    StaysUnderway(r, s, t, k, |r.labels|);
  }

  // A rebuild for a job that does not use the dataset can start at any time: nobody hashes on it.

  ghost predicate CleanIsRight(s: State, k: Kind) {
    forall m :: 0 <= m < |s.miners| && s.miners[m].kind == k
                && (s.miners[m].pc.MDraw? || s.miners[m].pc.MHash?) && s.miners[m].pc.clean ==>
      s.miners[m].pc.j < |s.jobs| && RightContents(s, k, s.miners[m].pc.j)
  }

  /** From the start of the rebuild to the publication, and after it. */
  ghost predicate Harmless(s: State, k: Kind, job: Job) {
    && LockInv(s, k) && JobsInv(s)
    && if s.exec == EReady then s.jobs[Current(s)] == job
       else
         && s.exec.job == job && CleanIsRight(s, k)
         && (if s.exec.ELoad? && s.exec.k == k then CalmInv(s, k)
             else k in s.touched && (Rebuilding(s.exec, k) || Adjusted(s.exec, k)))
  }

  lemma CleanStaysRight(s: State, l: Label, k: Kind)
    requires LockInv(s, k) && JobsInv(s) && CleanIsRight(s, k) && k in s.touched
    requires Enabled(s, l) && Allowed(s, l, k, NothingNew)
    ensures CleanIsRight(Apply(s, l), k)
  {
    var t := Apply(s, l);
    StepKeepsKinds(s, l);
    forall m | 0 <= m < |t.miners| && t.miners[m].kind == k
               && (t.miners[m].pc.MDraw? || t.miners[m].pc.MHash?) && t.miners[m].pc.clean
      ensures t.miners[m].pc.j < |t.jobs| && RightContents(t, k, t.miners[m].pc.j)
    {
      if l.Mine? { MineFrame(s, l.m, k); }
      assert m in Ds(s, k).readers;
      StepPinsContents(s, l, k, m);
      StepKeepsJob(s, l, t.miners[m].pc.j);
    }
  }

  lemma StepStaysHarmless(s: State, l: Label, k: Kind, job: Job)
    requires Harmless(s, k, job) && Enabled(s, l) && Allowed(s, l, k, NothingNew)
    ensures Harmless(Apply(s, l), k, job)
  {
    StepKeepsLock(s, l, k);
    StepKeepsJobs(s, l);
    if l.Mine? { MineFrame(s, l.m, k); }
    if s.exec != EReady {
      if !s.exec.ELoad? || s.exec.k != k {
        CleanStaysRight(s, l, k);
      } else if l.ExecStep? {
        assert CleanIsRight(ExecApply(s), k);
      } else {
        StepKeepsCalm(s, l, k);
        CalmIsRight(Apply(s, l), k);
      }
    }
  }

  lemma CalmIsRight(s: State, k: Kind)
    requires CalmInv(s, k)
    ensures CleanIsRight(s, k)
  {
    assert forall m :: 0 <= m < |s.miners| && s.miners[m].kind == k ==> MinerInv(s, m);
  }

  lemma {:induction false} StaysHarmless(r: Run, s: State, t: State, k: Kind, job: Job, i: nat)
    requires Connects(r, s, t, k, NothingNew) && Harmless(s, k, job) && i < |r.states|
    ensures Harmless(r.states[i], k, job)
  {
    if i > 0 {
      StaysHarmless(r, s, t, k, job, i - 1);
      assert Enabled(r.states[i - 1], r.labels[i - 1]) && Allowed(r.states[i - 1], r.labels[i - 1], k, NothingNew);
      StepStaysHarmless(r.states[i - 1], r.labels[i - 1], k, job);
    }
  }

  /** The executor of a run that has been calm is about to rebuild dataset k. */
  ghost predicate AboutToRebuild(r: Run, k: Kind) {
    IsRun(r) && Calm(r, k) && r.states[|r.labels|].exec.ELoad? && r.states[|r.labels|].exec.k == k
  }

  /** The guard that would make it right: the job does not use the dataset, or no ProgPow builder is
      waiting for the lock, or every RandomX builder has announced. */
  predicate MayStart(s: State, k: Kind)
    requires s.exec.ELoad?
  {
    !Uses(s.exec.job, k) || MayRebuild(Ds(s, k), k)
  }

  /** What the rebuild at hand leads to, if it may start. */
  lemma StartsWell(r: Run, k: Kind, t: State)
    requires AboutToRebuild(r, k) && MayStart(r.states[|r.labels|], k)
    requires Leads(r.states[|r.labels|], t, k, NothingNew)
    ensures forall n: nat :: !WrongHash(t, k, n, true)
    ensures !Stalled(t, k)
  {
    var s := r.states[|r.labels|];
    RunIsCalm(r, k, |r.labels|);
    if MayRebuild(Ds(s, k), k) {
      LeadsStaysUnderway(s, t, k);
      CalmIsRight(t, k);
    } else {
      CalmIsRight(s, k);
      var c: Run :| Connects(c, s, t, k, NothingNew);
      StaysHarmless(c, s, t, k, s.exec.job, |c.labels|);
    }
  }

  /** The exact condition. Up to here the run has been calm, and nothing new will come from the pool.
      Then all hashes whose guard passes outside the window are on the right contents, whatever the
      threads do, if and only if the rebuild may start. */
  lemma RebuildIsSafeExactly(r: Run, k: Kind, m: nat)
    requires AboutToRebuild(r, k) && m < |r.states[|r.labels|].miners|
    requires r.states[|r.labels|].miners[m].kind == k
    ensures var s := r.states[|r.labels|];
      MayStart(s, k) <==> forall t, n: nat :: Leads(s, t, k, NothingNew) ==> !WrongHash(t, k, n, true)
  {
    var s := r.states[|r.labels|];
    RunIsCalm(r, k, |r.labels|);
    if MayStart(s, k) {
      forall t, n: nat | Leads(s, t, k, NothingNew)
        ensures !WrongHash(t, k, n, true)
      {
        StartsWell(r, k, t);
      }
    } else if k == Pp {
      var b :| b in s.pp.builders && s.pp.builders[b].pc == Spawned;
      var wrong := TooEarlyHashesWrong(s, b, m);
    } else {
      var b :| b in s.rx.builders && s.rx.builders[b].pc != Announced;
      var wrong := TooEarlyHashesWrongRx(s, b, m);
    }
  }

  /** The same condition decides whether a ProgPow rebuild can be lost. */
  lemma RebuildIsKeptExactly(r: Run)
    requires AboutToRebuild(r, Pp)
    ensures var s := r.states[|r.labels|];
      MayStart(s, Pp) <==> forall t :: Leads(s, t, Pp, NothingNew) ==> !Stalled(t, Pp)
  {
    var s := r.states[|r.labels|];
    RunIsCalm(r, Pp, |r.labels|);
    if MayStart(s, Pp) {
      forall t | Leads(s, t, Pp, NothingNew)
        ensures !Stalled(t, Pp)
      {
        StartsWell(r, Pp, t);
      }
    } else {
      var b :| b in s.pp.builders && s.pp.builders[b].pc == Spawned;
      var stalled := TooEarlyLosesARebuild(s, b);
    }
  }

  // ------------------------------------------------------------------ exactly which seeds may be stored

  /** The executor will store no further seed for the job at hand. */
  predicate SeedStored(exec: ExecPc) {
    exec == EReady || exec.EPublish? || exec.k == Pp || exec.ESpawn?
  }

  lemma {:induction false} StaysSteady(r: Run, s: State, t: State, i: nat)
    requires Connects(r, s, t, Rx, NothingNew) && i < |r.states|
    requires SteadyInv(s.rx) && ExecInv(s, Rx) && LockInv(s, Rx) && SeedStored(s.exec)
    ensures var u := r.states[i];
      SteadyInv(u.rx) && ExecInv(u, Rx) && LockInv(u, Rx) && SeedStored(u.exec)
  {
    if i > 0 {
      StaysSteady(r, s, t, i - 1);
      var u, l := r.states[i - 1], r.labels[i - 1];
      assert Enabled(u, l) && Allowed(u, l, Rx, NothingNew);
      StepKeepsSteadyInv(u, l);
      StepKeepsExecInv(u, l, Rx);
      StepKeepsLock(u, l, Rx);
      if l.Mine? { MineFrame(u, l.m, Rx); }
    }
  }

  /** The run so far, and its last step stores the seed of a RandomX job. */
  ghost predicate SeedJustStored(r: Run) {
    && IsRun(r) && |r.labels| > 0
    && r.states[|r.labels| - 1].exec.ESeed? && r.labels[|r.labels| - 1] == ExecStep
    && forall i {:trigger r.labels[i]} :: 0 <= i < |r.labels| - 1 ==> SteadyStep(r.states[i], r.labels[i])
  }

  /** The exact condition for RandomX coherence: storing a seed is harmless, whatever the threads do
      from there, if and only if no builder has read a seed of another id and not announced it yet. */
  lemma SeedIsSafeExactly(r: Run)
    requires SeedJustStored(r)
    ensures SteadyStep(r.states[|r.labels| - 1], ExecStep) <==>
      forall t :: Leads(r.states[|r.labels|], t, Rx, NothingNew) ==> Coherent(t.rx)
  {
    var n := |r.labels| - 1;
    var s, u := r.states[n], r.states[n + 1];
    assert Enabled(s, r.labels[n]) && u == Apply(s, r.labels[n]);
    var prefix := Run(r.states[..n + 1], r.labels[..n]);
    assert Steps(prefix) by {
      forall i | 0 <= i < n
        ensures Enabled(prefix.states[i], prefix.labels[i])
          && prefix.states[i + 1] == Apply(prefix.states[i], prefix.labels[i])
      {
        assert prefix.labels[i] == r.labels[i] && Enabled(r.states[i], r.labels[i]);
      }
    }
    RandomXIsCoherentWhileSteady(prefix, n);
    RunKeepsExec(r, Rx, n);
    RunKeepsExec(r, Rx, n + 1);
    if SteadyStep(s, ExecStep) {
      StepKeepsSteadyInv(s, ExecStep);
      forall t | Leads(u, t, Rx, NothingNew)
        ensures Coherent(t.rx)
      {
        var c: Run :| Connects(c, u, t, Rx, NothingNew);
        StaysSteady(c, u, t, |c.labels|);
      }
    } else {
      RunKeepsSeedInv(r, n);
      LeadsNowhere(u, Rx, NothingNew);
      var b :| b in s.rx.builders && (s.rx.builders[b].pc.Filling? || s.rx.builders[b].pc.Filled?)
        && GetId(s.exec.job.seed) != KeyId(s.rx.builders[b].pc.source);
      var incoherent := AnnouncesWrong(u, u, b);
      IdIsNeverInvalid(s.exec.job.seed);
      assert !Coherent(incoherent.rx);
    }
  }
}
