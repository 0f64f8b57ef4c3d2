/** What every interleaving of the mining protocol keeps. */
module MiningSafety {
  import opened Words
  import opened Vector32
  import opened MiningProtocol

  // ------------------------------------------------------------------ the lock

  /** The readers of a dataset are exactly the miner threads inside the shared lock, and a builder
      past its lock statement is the only writer. Holds with any number of rebuilds. */
  ghost predicate LockInv(s: State, k: Kind) {
    var d := Ds(s, k);
    && (forall m :: m in d.readers ==> m < |s.miners|)
    && (forall m :: 0 <= m < |s.miners| ==>
          (m in d.readers <==> s.miners[m].kind == k && Holding(s.miners[m].pc)))
    && (d.writer.Some? ==> d.readers == {} && d.writer.value in d.builders
                           && d.builders[d.writer.value].pc != Spawned)
    && (forall b :: b in d.builders ==>
          b < d.spawned && (d.builders[b].pc != Spawned ==> d.writer == Some(b)))
  }

  ghost predicate JobsInv(s: State) {
    && s.jobs != []
    && forall m :: 0 <= m < |s.miners| ==> JobOf(s.miners[m].pc) < |s.jobs|
  }

  lemma ExecKeepsLock(s: State, k: Kind)
    requires LockInv(s, k) && Enabled(s, ExecStep)
    ensures LockInv(ExecApply(s), k)
  {
    var t := ExecApply(s);
    assert t.miners == s.miners;
    assert Ds(t, k).readers == Ds(s, k).readers && Ds(t, k).writer == Ds(s, k).writer;
  }

  lemma BuildKeepsLock(s: State, k: Kind, b: nat)
    requires LockInv(s, k) && Enabled(s, Build(k, b))
    ensures LockInv(Apply(s, Build(k, b)), k)
  {
    var d, e := Ds(s, k), BuildApply(Ds(s, k), k, b);
    assert Ds(Apply(s, Build(k, b)), k) == e && e.readers == d.readers;
    assert forall c :: c in e.builders && c != b ==> c in d.builders && e.builders[c] == d.builders[c];
  }

  /** A miner's step changes its own program counter, the readers of its dataset and the counter. */
  lemma MineFrame(s: State, m: nat, k: Kind)
    requires Enabled(s, Mine(m))
    ensures var t := MineApply(s, m);
      && t.jobs == s.jobs && t.exec == s.exec && t.touched == s.touched
      && Ds(t, k) == Ds(s, k).(readers := Ds(t, k).readers)
      && |t.miners| == |s.miners| && t.miners[m].kind == s.miners[m].kind
      && forall n :: 0 <= n < |s.miners| && n != m ==> t.miners[n] == s.miners[n]
  {
  }

  /** It takes and drops the shared lock exactly where its program counter says so. */
  lemma MineReaders(s: State, m: nat, k: Kind)
    requires Enabled(s, Mine(m))
    ensures var t, pc := MineApply(s, m), s.miners[m].pc;
      && Ds(t, k).readers == (if s.miners[m].kind == k && pc.MLock? then Ds(s, k).readers + {m}
                              else if s.miners[m].kind == k && pc.MUnlock? then Ds(s, k).readers - {m}
                              else Ds(s, k).readers)
      && m < |t.miners| && (Holding(t.miners[m].pc) <==> pc.MLock? || (Holding(pc) && !pc.MUnlock?))
  {
  }

  lemma MineKeepsLock(s: State, k: Kind, m: nat)
    requires LockInv(s, k) && Enabled(s, Mine(m))
    ensures LockInv(MineApply(s, m), k)
  {
    MineFrame(s, m, k);
    MineReaders(s, m, k);
  }

  lemma StepKeepsLock(s: State, l: Label, k: Kind)
    requires LockInv(s, k) && Enabled(s, l)
    ensures LockInv(Apply(s, l), k)
  {
    match l {
      case ExecStep => ExecKeepsLock(s, k);
      case Build(k', b) =>
        if k' == k { BuildKeepsLock(s, k, b); }
      case Mine(m) => MineKeepsLock(s, k, m);
      case _ =>
    }
  }

  lemma StepKeepsJobs(s: State, l: Label)
    requires JobsInv(s) && Enabled(s, l)
    ensures JobsInv(Apply(s, l))
  {
  }

  // ------------------------------------------------------------------ the executor

  /** The executor has invalidated dataset k for this job but not yet spawned the builder. */
  predicate Rebuilding(exec: ExecPc, k: Kind) {
    (exec.EInvalidate? || exec.ESeed? || exec.ESpawn?) && exec.k == k
  }

  /** The executor has finished adjusting dataset k for the job it is about to publish. */
  predicate Adjusted(exec: ExecPc, k: Kind) {
    exec.EPublish? || (k == Rx && !exec.EReady? && exec.k == Pp)
  }

  /** The current job uses dataset k. */
  predicate InUse(s: State, k: Kind) {
    s.jobs != [] && Uses(s.jobs[Current(s)], k)
  }

  function CurrentId(s: State, k: Kind): nat
    requires InUse(s, k)
  {
    DatasetId(s.jobs[Current(s)], k)
  }

  /** What `loaded_id` says. Holds with any number of rebuilds. */
  ghost predicate ExecInv(s: State, k: Kind) {
    var d := Ds(s, k);
    && (s.exec.ESeed? ==> s.exec.k == Rx)
    && (k in s.touched ==> Rebuilding(s.exec, k) || Adjusted(s.exec, k))
    && (s.exec.ELoad? && s.exec.k == k ==> d.loaded != DatasetId(s.exec.job, k))
    && (Rebuilding(s.exec, k) ==> k in s.touched && d.loaded == DatasetId(s.exec.job, k))
    && (k == Rx && s.exec.ESpawn? && s.exec.k == k ==> d.seed == s.exec.job.seed)
    && (Adjusted(s.exec, k) ==> d.loaded == DatasetId(s.exec.job, k))
    && (InUse(s, k) && k !in s.touched ==> d.loaded == CurrentId(s, k))
  }

  lemma ExecKeepsExecInv(s: State, k: Kind)
    requires ExecInv(s, k) && s.exec != EReady
    ensures ExecInv(ExecApply(s), k)
  {
    if s.exec.EPublish? {
      assert Current(ExecApply(s)) == |s.jobs|;
    }
  }

  lemma OthersKeepExecInv(s: State, t: State, k: Kind)
    requires ExecInv(s, k) && t.exec == s.exec && t.touched == s.touched && t.jobs == s.jobs
    requires Ds(t, k).loaded == Ds(s, k).loaded && Ds(t, k).seed == Ds(s, k).seed
    ensures ExecInv(t, k)
  {
  }

  lemma StepKeepsExecInv(s: State, l: Label, k: Kind)
    requires ExecInv(s, k) && Enabled(s, l)
    ensures ExecInv(Apply(s, l), k)
  {
    match l {
      case ExecStep => ExecKeepsExecInv(s, k);
      case Mine(m) =>
        MineFrame(s, m, k);
        OthersKeepExecInv(s, Apply(s, l), k);
      case Build(k', b) => OthersKeepExecInv(s, Apply(s, l), k);
      case _ =>
    }
  }

  // ------------------------------------------------------------------ calm rebuilds

  /** Whenever no builder holds the lock, `ready_id` is invalid or the id of the contents. */
  predicate Coherent(d: Dataset) {
    d.writer == None ==>
      d.ready == INVALID_ID || (d.contents.Built? && KeyId(d.contents.key) == d.ready)
  }

  /** Where the executor is in rebuilding a dataset. */
  datatype Phase = Outside | Begun | Invalidated

  function PhaseOf(exec: ExecPc, k: Kind): Phase {
    if !Rebuilding(exec, k) then Outside else if exec.EInvalidate? then Begun else Invalidated
  }

  /** The id the current job asks of dataset k, if it uses it. */
  function Needed(s: State, k: Kind): Option<nat> {
    if InUse(s, k) then Some(CurrentId(s, k)) else None
  }

  /** The newest builder waits for the lock. */
  predicate NewestWaits(d: Dataset) {
    d.spawned > 0 && d.spawned - 1 in d.builders && d.builders[d.spawned - 1].pc == Spawned
  }

  /** No rebuild is pending: at most the last builder has yet to release the lock. */
  predicate Resting(d: Dataset) {
    forall b :: b in d.builders ==> d.builders[b].pc == Announced
  }

  /** A pending rebuild is the one `loaded_id` names, unless a newer one is waiting behind it. */
  predicate DatasetInv(d: Dataset, k: Kind, phase: Phase, needed: Option<nat>) {
    && Coherent(d)
    && (forall b :: b in d.builders ==> BuilderInv(d, k, b) && PendingInv(d, k, phase, needed, b))
    && (phase == Invalidated ==> d.ready != d.loaded)
    && (phase == Outside && Resting(d) ==> d.ready == d.loaded)
  }

  predicate BuilderInv(d: Dataset, k: Kind, b: nat)
    requires b in d.builders
  {
    var t := d.builders[b];
    && (t.pc != Announced ==> d.ready != KeyId(Source(d, k, t)))
    && (t.pc.Filling? || t.pc.Filled? ==> t.pc.source == Source(d, k, t))
    && (t.pc.Filled? ==> d.contents == Built(t.pc.source))
    && (t.pc.Announced? ==>
          d.contents.Built? && (d.ready == INVALID_ID || d.ready == KeyId(d.contents.key)))
  }

  predicate PendingInv(d: Dataset, k: Kind, phase: Phase, needed: Option<nat>, b: nat)
    requires b in d.builders
  {
    var t := d.builders[b];
    var id := KeyId(Source(d, k, t));
    t.pc != Announced ==>
      if phase == Outside then
        && (id == d.loaded <==> b == d.spawned - 1)
        && (b == d.spawned - 1 || (t.pc != Spawned && NewestWaits(d)))
      else
        k == Pp && t.pc != Spawned && id != d.loaded && (needed.Some? ==> id == needed.value)
  }

  ghost predicate BuildersInv(s: State, k: Kind) {
    DatasetInv(Ds(s, k), k, PhaseOf(s.exec, k), Needed(s, k))
  }

  /** Dataset k holds exactly what job j asks for. */
  predicate RightContents(s: State, k: Kind, j: nat)
    requires j < |s.jobs|
  {
    Ds(s, k).contents.Built? && KeyId(Ds(s, k).contents.key) == DatasetId(s.jobs[j], k)
  }

  /** No builder is at work on the contents. */
  predicate Settled(d: Dataset) {
    d.writer == None || (d.writer.value in d.builders && d.builders[d.writer.value].pc == Announced)
  }

  /** The miner's job is current, and the executor has not begun to change its dataset. */
  predicate UpToDate(s: State, k: Kind, j: nat) { Current(s) == j && k !in s.touched }

  ghost predicate MinerInv(s: State, m: nat)
    requires m < |s.miners|
  {
    var k, pc := s.miners[m].kind, s.miners[m].pc;
    && JobOf(pc) < |s.jobs|
    && (pc.MCheck? || pc.MCheckJob? || pc.MLock? || Holding(pc) ==> Uses(s.jobs[pc.j], k))
    && (pc.MLock? ==> WaiterInv(s, k, pc.j))
    && (Holding(pc) && UpToDate(s, k, pc.j) ==>
          RightContents(s, k, pc.j) && Ds(s, k).ready == DatasetId(s.jobs[pc.j], k))
    && ((pc.MDraw? || pc.MHash?) && pc.clean ==> RightContents(s, k, pc.j))
  }

  /** A miner whose check has passed and that does not hold the lock yet. */
  predicate WaiterInv(s: State, k: Kind, j: nat)
    requires j < |s.jobs|
  {
    && (UpToDate(s, k, j) || (Current(s) == j && s.exec.EInvalidate? && s.exec.k == k) ==>
          Ds(s, k).ready == DatasetId(s.jobs[j], k))
    && (Current(s) == j && Ds(s, k).ready == INVALID_ID && Settled(Ds(s, k)) ==> RightContents(s, k, j))
  }

  ghost predicate MinersInv(s: State, k: Kind) {
    forall m :: 0 <= m < |s.miners| && s.miners[m].kind == k ==> MinerInv(s, m)
  }

  ghost predicate CalmInv(s: State, k: Kind) {
    && LockInv(s, k) && JobsInv(s) && ExecInv(s, k) && BuildersInv(s, k) && MinersInv(s, k)
  }

  lemma InitIsCalm(s: State, k: Kind)
    requires Init(s)
    ensures CalmInv(s, k)
  {
  }

  lemma KeyIdsAreValid(key: Key)
    ensures KeyId(key) != INVALID_ID
  {
    if key.SeedKey? {
      IdIsNeverInvalid(key.seed);
    }
  }

  lemma StartKeepsDataset(d: Dataset, k: Kind, id: nat, needed: Option<nat>)
    requires DatasetInv(d, k, Outside, needed) && MayRebuild(d, k)
    requires d.loaded != id && (needed.Some? ==> d.loaded == needed.value)
    ensures DatasetInv(d.(loaded := id), k, Begun, needed)
  {
    assert forall b :: b in d.builders ==> BuilderInv(d, k, b) && PendingInv(d, k, Outside, needed, b);
  }

  lemma InvalidateKeepsDataset(d: Dataset, k: Kind, needed: Option<nat>)
    requires DatasetInv(d, k, Begun, needed) && d.loaded != INVALID_ID
    ensures DatasetInv(d.(ready := INVALID_ID), k, Invalidated, needed)
  {
    forall b | b in d.builders
      ensures BuilderInv(d.(ready := INVALID_ID), k, b)
    {
      assert BuilderInv(d, k, b);
      KeyIdsAreValid(Source(d, k, d.builders[b]));
    }
    assert forall b :: b in d.builders ==> PendingInv(d, k, Begun, needed, b);
  }

  lemma SeedKeepsDataset(d: Dataset, seed: V32, needed: Option<nat>)
    requires DatasetInv(d, Rx, Invalidated, needed)
    ensures DatasetInv(d.(seed := seed), Rx, Invalidated, needed)
  {
    assert forall b :: b in d.builders ==> BuilderInv(d, Rx, b) && PendingInv(d, Rx, Invalidated, needed, b);
  }

  lemma SpawnKeepsDataset(d: Dataset, k: Kind, t: Builder, needed: Option<nat>)
    requires DatasetInv(d, k, Invalidated, needed) && t.pc == Spawned && KeyId(Source(d, k, t)) == d.loaded
    requires forall b :: b in d.builders ==> b < d.spawned
    ensures DatasetInv(d.(builders := d.builders[d.spawned := t], spawned := d.spawned + 1), k, Outside, needed)
  {
    var e := d.(builders := d.builders[d.spawned := t], spawned := d.spawned + 1);
    assert e.builders[d.spawned] == t;
    forall b | b in d.builders
      ensures BuilderInv(e, k, b) && PendingInv(e, k, Outside, needed, b)
    {
      assert BuilderInv(d, k, b) && PendingInv(d, k, Invalidated, needed, b);
    }
  }

  predicate WorksOn(exec: ExecPc, k: Kind) {
    (exec.ELoad? && exec.k == k) || Rebuilding(exec, k)
  }

  /** What the executor's step does to dataset k, to its phase, and to what the current job needs. */
  lemma ExecEffect(s: State, k: Kind)
    requires s.exec != EReady && (s.exec.ESeed? ==> s.exec.k == Rx)
    ensures var d, e, p := Ds(s, k), Ds(ExecApply(s), k), PhaseOf(ExecApply(s).exec, k);
      && (!s.exec.EPublish? ==> Needed(ExecApply(s), k) == Needed(s, k))
      && (if !WorksOn(s.exec, k) then e == d && p == Outside == PhaseOf(s.exec, k)
          else match s.exec
            case ELoad(_, job) => e == d.(loaded := DatasetId(job, k)) && p == Begun && PhaseOf(s.exec, k) == Outside
            case EInvalidate(_, job) => e == d.(ready := INVALID_ID) && p == Invalidated && PhaseOf(s.exec, k) == Begun
            case ESeed(_, job) => k == Rx && e == d.(seed := job.seed) && p == Invalidated == PhaseOf(s.exec, k)
            case ESpawn(_, job) =>
              && e == d.(builders := d.builders[d.spawned := Builder(job.epoch, Spawned)], spawned := d.spawned + 1)
              && p == Outside && PhaseOf(s.exec, k) == Invalidated
            case _ => true)
  {
  }

  lemma ExecKeepsBuildersInv(s: State, k: Kind)
    requires ExecInv(s, k) && LockInv(s, k) && BuildersInv(s, k)
    requires Enabled(s, ExecStep) && CalmStep(s, ExecStep, k)
    ensures BuildersInv(ExecApply(s), k)
  {
    var d, needed := Ds(s, k), Needed(s, k);
    ExecEffect(s, k);
    if s.exec.EPublish? {
      OutsideNeedsNothing(d, k, needed, Needed(ExecApply(s), k));
    } else if WorksOn(s.exec, k) {
      KeyIdsAreValid(KeyOf(s.exec.job, k));
      match s.exec {
        case ELoad(_, job) => StartKeepsDataset(d, k, DatasetId(job, k), needed);
        case EInvalidate(_, job) => InvalidateKeepsDataset(d, k, needed);
        case ESeed(_, job) => SeedKeepsDataset(d, job.seed, needed);
        case ESpawn(_, job) => SpawnKeepsDataset(d, k, Builder(job.epoch, Spawned), needed);
        case _ =>
      }
    }
  }

  lemma OutsideNeedsNothing(d: Dataset, k: Kind, needed: Option<nat>, other: Option<nat>)
    requires DatasetInv(d, k, Outside, needed)
    ensures DatasetInv(d, k, Outside, other)
  {
    assert forall b :: b in d.builders ==> BuilderInv(d, k, b) && PendingInv(d, k, Outside, needed, b);
  }

  /** The holder of the lock is the only builder past its lock statement. */
  predicate WriterInv(d: Dataset) {
    && (d.writer.Some? ==> d.writer.value in d.builders)
    && (forall b :: b in d.builders ==>
          b < d.spawned && (d.builders[b].pc != Spawned <==> d.writer == Some(b)))
  }

  lemma BuildKeepsDataset(d: Dataset, k: Kind, phase: Phase, needed: Option<nat>, b: nat)
    requires DatasetInv(d, k, phase, needed) && WriterInv(d) && b in d.builders
    requires d.builders[b].pc == Spawned ==> d.writer == None
    ensures DatasetInv(BuildApply(d, k, b), k, phase, needed)
  {
    var e := BuildApply(d, k, b);
    forall c | c in e.builders
      ensures BuilderInv(e, k, c) && PendingInv(e, k, phase, needed, c)
    {
      if c == b { BuilderKeepsItself(d, k, phase, needed, b); }
      else { BuilderKeepsOthers(d, k, phase, needed, b, c); }
    }
    BuilderKeepsIds(d, k, phase, needed, b);
  }

  lemma BuilderKeepsItself(d: Dataset, k: Kind, phase: Phase, needed: Option<nat>, b: nat)
    requires b in d.builders && BuilderInv(d, k, b) && PendingInv(d, k, phase, needed, b)
    requires b in BuildApply(d, k, b).builders && WriterInv(d)
    requires d.builders[b].pc == Spawned ==> d.writer == None
    ensures BuilderInv(BuildApply(d, k, b), k, b) && PendingInv(BuildApply(d, k, b), k, phase, needed, b)
  {
  }

  /** Every other builder is waiting. */
  lemma BuilderKeepsOthers(d: Dataset, k: Kind, phase: Phase, needed: Option<nat>, b: nat, c: nat)
    requires b in d.builders && WriterInv(d) && c in BuildApply(d, k, b).builders && c != b
    requires c in d.builders && BuilderInv(d, k, c) && PendingInv(d, k, phase, needed, c)
    requires BuilderInv(d, k, b) && PendingInv(d, k, phase, needed, b)
    requires d.builders[b].pc == Spawned ==> d.writer == None
    ensures BuilderInv(BuildApply(d, k, b), k, c) && PendingInv(BuildApply(d, k, b), k, phase, needed, c)
  {
    assert d.builders[c].pc == Spawned && BuildApply(d, k, b).builders[c] == d.builders[c];
  }

  lemma BuilderKeepsIds(d: Dataset, k: Kind, phase: Phase, needed: Option<nat>, b: nat)
    requires DatasetInv(d, k, phase, needed) && WriterInv(d) && b in d.builders
    requires d.builders[b].pc == Spawned ==> d.writer == None
    ensures var e := BuildApply(d, k, b);
      && Coherent(e)
      && (phase == Invalidated ==> e.ready != e.loaded)
      && (phase == Outside && Resting(e) ==> e.ready == e.loaded)
  {
    var e := BuildApply(d, k, b);
    assert BuilderInv(d, k, b) && PendingInv(d, k, phase, needed, b);
    assert forall c :: c in d.builders && c != b ==> c in e.builders && e.builders[c] == d.builders[c];
    assert Resting(e) && d.builders[b].pc.Announced? ==> Resting(d);
    assert Resting(e) ==> b == d.spawned - 1 || !NewestWaits(d);
    assert Resting(e) && b in e.builders ==> e.builders[b].pc == Announced;
  }

  lemma StepKeepsBuildersInv(s: State, l: Label, k: Kind)
    requires CalmInv(s, k) && Enabled(s, l) && CalmStep(s, l, k)
    ensures BuildersInv(Apply(s, l), k)
  {
    match l {
      case ExecStep => ExecKeepsBuildersInv(s, k);
      case Mine(m) =>
        MineFrame(s, m, k);
        ReadersKeepDataset(Ds(s, k), k, PhaseOf(s.exec, k), Needed(s, k), Ds(Apply(s, l), k).readers);
      case Build(k', b) =>
        if k' == k { BuildKeepsDataset(Ds(s, k), k, PhaseOf(s.exec, k), Needed(s, k), b); }
      case PushIdle(job) => OutsideNeedsNothing(Ds(s, k), k, Needed(s, k), Needed(Apply(s, l), k));
      case _ =>
    }
  }

  lemma ReadersKeepDataset(d: Dataset, k: Kind, phase: Phase, needed: Option<nat>, readers: set<nat>)
    requires DatasetInv(d, k, phase, needed)
    ensures DatasetInv(d.(readers := readers), k, phase, needed)
  {
    assert forall b :: b in d.builders ==> BuilderInv(d, k, b) && PendingInv(d, k, phase, needed, b);
  }

  lemma ExecKeepsMinerInv(s: State, k: Kind, m: nat)
    requires CalmInv(s, k) && Enabled(s, ExecStep)
    requires m < |s.miners| && s.miners[m].kind == k
    ensures MinerInv(ExecApply(s), m)
  {
    var pc := s.miners[m].pc;
    assert MinerInv(s, m);
    ExecFrame(s, k);
    if s.exec.EPublish? {
      assert pc.MStart? || pc.j < Current(ExecApply(s));
    } else if pc.MLock? {
      ExecKeepsWaiterInv(s, k, pc.j);
    } else if Holding(pc) && UpToDate(ExecApply(s), k, pc.j) {
      ExecEffect(s, k);
    }
  }

  /** What the executor's step leaves alone. */
  lemma ExecFrame(s: State, k: Kind)
    requires s.exec != EReady
    ensures var t := ExecApply(s);
      && t.miners == s.miners && Ds(t, k).contents == Ds(s, k).contents && s.jobs <= t.jobs
      && (if s.exec.EPublish? then |t.jobs| == |s.jobs| + 1
          else t.jobs == s.jobs && s.touched <= t.touched)
  {
  }

  lemma ExecKeepsWaiterInv(s: State, k: Kind, j: nat)
    requires LockInv(s, k) && ExecInv(s, k) && BuildersInv(s, k) && Enabled(s, ExecStep) && !s.exec.EPublish?
    requires j < |s.jobs| && WaiterInv(s, k, j)
    ensures WaiterInv(ExecApply(s), k, j)
  {
    var d, e := Ds(s, k), Ds(ExecApply(s), k);
    ExecEffect(s, k);
    KeyIdsAreValid(KeyOf(s.jobs[j], k));
    assert Settled(e) ==> Settled(d);
    assert d.writer.Some? ==> BuilderInv(d, k, d.writer.value);
  }

  /** A builder changes `ready_id` only to what it was not, and contents only with no reader. */
  lemma BuildKeepsMinerInv(s: State, k: Kind, b: nat, m: nat)
    requires CalmInv(s, k) && Enabled(s, Build(k, b))
    requires m < |s.miners| && s.miners[m].kind == k
    ensures MinerInv(Apply(s, Build(k, b)), m)
  {
    var t, d := Apply(s, Build(k, b)), Ds(s, k);
    assert MinerInv(s, m) && t.miners == s.miners && t.jobs == s.jobs && t.touched == s.touched;
    assert BuilderInv(d, k, b) && PendingInv(d, k, PhaseOf(s.exec, k), Needed(s, k), b);
    KeyIdsAreValid(Source(d, k, d.builders[b]));
    KeyIdsAreValid(KeyOf(s.jobs[JobOf(s.miners[m].pc)], k));
    assert Holding(s.miners[m].pc) ==> m in d.readers;
  }

  lemma MineKeepsMinerInv(s: State, k: Kind, m: nat)
    requires BuildersInv(s, k) && JobsInv(s) && Enabled(s, Mine(m))
    requires s.miners[m].kind == k && MinerInv(s, m)
    ensures MinerInv(MineApply(s, m), m)
  {
    MineFrame(s, m, k);
    var t, pc := MineApply(s, m), s.miners[m].pc;
    assert t.miners[m].pc == NextPc(s, k, pc) && Ds(t, k).contents == Ds(s, k).contents;
    KeyIdsAreValid(KeyOf(s.jobs[JobOf(pc)], k));
  }

  lemma OthersKeepMinerInv(s: State, t: State, m: nat)
    requires m < |s.miners| && MinerInv(s, m) && m < |t.miners| && t.miners[m] == s.miners[m]
    requires t.touched == s.touched && t.jobs == s.jobs && t.exec == s.exec
    requires var k := s.miners[m].kind; Ds(t, k) == Ds(s, k).(readers := Ds(t, k).readers)
    ensures MinerInv(t, m)
  {
  }

  lemma StepKeepsMinerInv(s: State, l: Label, k: Kind, m: nat)
    requires CalmInv(s, k) && Enabled(s, l) && CalmStep(s, l, k)
    requires m < |s.miners| && s.miners[m].kind == k
    ensures m < |Apply(s, l).miners| && MinerInv(Apply(s, l), m)
  {
    assert MinerInv(s, m);
    match l {
      case ExecStep => ExecKeepsMinerInv(s, k, m);
      case Mine(n) =>
        MineFrame(s, n, k);
        if n == m { MineKeepsMinerInv(s, k, m); } else { OthersKeepMinerInv(s, Apply(s, l), m); }
      case Build(k', b) =>
        if k' == k { BuildKeepsMinerInv(s, k, b, m); } else { OthersKeepMinerInv(s, Apply(s, l), m); }
      case _ =>
    }
  }

  // ------------------------------------------------------------------ every run

  lemma StepKeepsMinersInv(s: State, l: Label, k: Kind)
    requires CalmInv(s, k) && Enabled(s, l) && CalmStep(s, l, k)
    ensures MinersInv(Apply(s, l), k)
  {
    var t := Apply(s, l);
    StepKeepsKinds(s, l);
    forall m | 0 <= m < |t.miners| && t.miners[m].kind == k
      ensures MinerInv(t, m)
    {
      StepKeepsMinerInv(s, l, k, m);
    }
  }

  lemma StepKeepsKinds(s: State, l: Label)
    requires Enabled(s, l)
    ensures |Apply(s, l).miners| == |s.miners|
    ensures forall m :: 0 <= m < |s.miners| ==> Apply(s, l).miners[m].kind == s.miners[m].kind
  {
    if l.Mine? { MineFrame(s, l.m, Rx); }
  }

  lemma StepKeepsCalm(s: State, l: Label, k: Kind)
    requires CalmInv(s, k) && Enabled(s, l) && CalmStep(s, l, k)
    ensures CalmInv(Apply(s, l), k)
  {
    StepKeepsLock(s, l, k);
    StepKeepsJobs(s, l);
    StepKeepsExecInv(s, l, k);
    StepKeepsBuildersInv(s, l, k);
    StepKeepsMinersInv(s, l, k);
  }

  lemma {:induction false} RunIsCalm(r: Run, k: Kind, i: nat)
    requires IsRun(r) && Calm(r, k) && i < |r.states|
    ensures CalmInv(r.states[i], k)
  {
    if i == 0 {
      InitIsCalm(r.states[0], k);
    } else {
      RunIsCalm(r, k, i - 1);
      assert CalmStep(r.states[i - 1], r.labels[i - 1], k);
      StepKeepsCalm(r.states[i - 1], r.labels[i - 1], k);
    }
  }

  lemma {:induction false} RunKeepsLock(r: Run, k: Kind, i: nat)
    requires IsRun(r) && i < |r.states|
    ensures LockInv(r.states[i], k) && JobsInv(r.states[i])
  {
    if i > 0 {
      RunKeepsLock(r, k, i - 1);
      StepKeepsLock(r.states[i - 1], r.labels[i - 1], k);
      StepKeepsJobs(r.states[i - 1], r.labels[i - 1]);
    }
  }

  // ------------------------------------------------------------------ seeds, epochs and algorithms

  /** A RandomX dataset is built from seeds and a ProgPow dataset from epochs, in every run. */
  predicate KeysInv(d: Dataset, k: Kind) {
    && (d.contents.Built? ==> d.contents.key.SeedKey? == (k == Rx))
    && (forall b :: b in d.builders && (d.builders[b].pc.Filling? || d.builders[b].pc.Filled?) ==>
          d.builders[b].pc.source.SeedKey? == (k == Rx))
  }

  /** Miners past the choice of their loop work on a job of their algorithm. */
  predicate AlgorithmInv(s: State, m: nat)
    requires m < |s.miners|
  {
    var pc := s.miners[m].pc;
    pc.MCheck? || pc.MCheckJob? || pc.MLock? || Holding(pc) ==>
      pc.j < |s.jobs| && Uses(s.jobs[pc.j], s.miners[m].kind)
  }

  lemma StepKeepsKeys(s: State, l: Label, k: Kind)
    requires KeysInv(Ds(s, k), k) && Enabled(s, l)
    ensures KeysInv(Ds(Apply(s, l), k), k)
  {
    match l {
      case Mine(m) => MineFrame(s, m, k);
      case _ =>
    }
  }

  lemma StepKeepsAlgorithm(s: State, l: Label, m: nat)
    requires m < |s.miners| && AlgorithmInv(s, m) && Enabled(s, l)
    ensures m < |Apply(s, l).miners| && AlgorithmInv(Apply(s, l), m)
  {
    StepKeepsKinds(s, l);
    var pc := s.miners[m].pc;
    if JobOf(pc) < |s.jobs| { StepKeepsJob(s, l, JobOf(pc)); }
    if l.Mine? { MineFrame(s, l.m, Rx); }
  }

  lemma {:induction false} RunKeepsKeys(r: Run, k: Kind, m: nat, i: nat)
    requires IsRun(r) && i < |r.states| && m < |r.states[i].miners|
    ensures KeysInv(Ds(r.states[i], k), k) && AlgorithmInv(r.states[i], m)
  {
    if i > 0 {
      assert Enabled(r.states[i - 1], r.labels[i - 1]);
      StepKeepsKinds(r.states[i - 1], r.labels[i - 1]);
      RunKeepsKeys(r, k, m, i - 1);
      StepKeepsKeys(r.states[i - 1], r.labels[i - 1], k);
      StepKeepsAlgorithm(r.states[i - 1], r.labels[i - 1], m);
    }
  }

  // ------------------------------------------------------------------ dataset safety

  /** Main safety result. If rebuilds of dataset k start only when they may, then in every state of
      the run, a thread hashing after a guard that passed outside the executor's adjust-to-publish
      window reads the contents of its job, although the check of `ready_id` comes before the lock and
      is not repeated: for ProgPow its epoch, and for RandomX a seed of the same id. */
  lemma HashesReadTheirDataset(r: Run, k: Kind, i: nat, m: nat)
    requires IsRun(r) && Calm(r, k)
    requires i < |r.states| && m < |r.states[i].miners| && r.states[i].miners[m].kind == k
    requires r.states[i].miners[m].pc.MHash? && r.states[i].miners[m].pc.clean
    ensures var s, j := r.states[i], r.states[i].miners[m].pc.j;
      && j < |s.jobs| && RightContents(s, k, j)
      && (k == Pp ==> s.jobs[j].pow == ProgPow && s.pp.contents == Built(EpochKey(s.jobs[j].epoch)))
      && (k == Rx ==> s.jobs[j].pow == RandomX && s.rx.contents.Built? && s.rx.contents.key.SeedKey?
                      && GetId(s.rx.contents.key.seed) == GetId(s.jobs[j].seed))
  {
    RunIsCalm(r, k, i);
    RunKeepsKeys(r, k, m, i);
    assert MinerInv(r.states[i], m);
  }

  lemma StepPinsContents(s: State, l: Label, k: Kind, m: nat)
    requires LockInv(s, k) && Enabled(s, l) && m in Ds(s, k).readers
    ensures Ds(Apply(s, l), k).contents == Ds(s, k).contents
  {
    match l {
      case Mine(n) => MineFrame(s, n, k);
      case Build(k', b) => assert k' != k;
      case _ =>
    }
  }

  /** While a thread stays inside the shared lock the contents cannot change, whatever the
      executor and however many builders do. */
  lemma {:induction false} LockPinsContents(r: Run, k: Kind, m: nat, i: nat, h: nat)
    requires IsRun(r) && i <= h < |r.states|
    requires forall x :: i <= x <= h ==> m in Ds(r.states[x], k).readers
    ensures Ds(r.states[h], k).contents == Ds(r.states[i], k).contents
    decreases h - i
  {
    if i < h {
      LockPinsContents(r, k, m, i, h - 1);
      RunKeepsLock(r, k, h - 1);
      StepPinsContents(r.states[h - 1], r.labels[h - 1], k, m);
    }
  }

  lemma {:induction false} JobsOnlyGrow(r: Run, i: nat, h: nat, j: nat)
    requires Steps(r) && i <= h < |r.states| && j < |r.states[i].jobs|
    ensures j < |r.states[h].jobs| && r.states[h].jobs[j] == r.states[i].jobs[j]
    decreases h - i
  {
    if i < h {
      JobsOnlyGrow(r, i, h - 1, j);
      assert Enabled(r.states[h - 1], r.labels[h - 1]);
      StepKeepsJob(r.states[h - 1], r.labels[h - 1], j);
    }
  }

  lemma StepKeepsJob(s: State, l: Label, j: nat)
    requires Enabled(s, l) && j < |s.jobs|
    ensures j < |Apply(s, l).jobs| && Apply(s, l).jobs[j] == s.jobs[j]
  {
    if l.Mine? { MineFrame(s, l.m, Rx); }
  }

  /** A thread inside the lock before the executor's window keeps the right contents through the
      window, the publication, and every rebuild that waits behind it. */
  lemma HoldersKeepTheirDataset(r: Run, k: Kind, m: nat, i: nat, h: nat)
    requires IsRun(r) && Calm(r, k) && i <= h < |r.states|
    requires m < |r.states[i].miners| && r.states[i].miners[m].kind == k
    requires var s := r.states[i]; Holding(s.miners[m].pc) && s.miners[m].pc.j == Current(s) && k !in s.touched
    requires forall x :: i <= x <= h ==> m in Ds(r.states[x], k).readers
    ensures var j := r.states[i].miners[m].pc.j;
      j < |r.states[h].jobs| && RightContents(r.states[h], k, j)
  {
    RunIsCalm(r, k, i);
    assert MinerInv(r.states[i], m);
    LockPinsContents(r, k, m, i, h);
    JobsOnlyGrow(r, i, h, r.states[i].miners[m].pc.j);
  }

  // ------------------------------------------------------------------ inside the window

  /** A miner of the current job that gets the lock has the right contents behind it exactly if
      `ready_id`, looked at again, is its id or invalid: inside the executor's window it may have
      been invalidated, and only a finished rebuild for the next job makes it a third value. */
  lemma RecheckDecides(r: Run, k: Kind, m: nat, i: nat)
    requires IsRun(r) && Calm(r, k) && i < |r.states|
    requires m < |r.states[i].miners| && r.states[i].miners[m].kind == k
    requires var s := r.states[i];
      s.miners[m].pc.MLock? && s.miners[m].pc.j == Current(s) && Ds(s, k).writer == None
    ensures var s := r.states[i];
      var j := s.miners[m].pc.j;
      j < |s.jobs| && (RightContents(s, k, j) <==>
                         Ds(s, k).ready == INVALID_ID || Ds(s, k).ready == DatasetId(s.jobs[j], k))
  {
    RunIsCalm(r, k, i);
    assert MinerInv(r.states[i], m);
  }

  /** Miner m takes the shared lock at step i of the run and holds it until point h. */
  ghost predicate LocksUntil(r: Run, k: Kind, m: nat, i: nat, h: nat)
    requires Steps(r)
  {
    && i < h < |r.states| && r.labels[i] == Mine(m)
    && m < |r.states[i].miners| && r.states[i].miners[m].kind == k && r.states[i].miners[m].pc.MLock?
    && forall x :: i < x <= h ==> m in Ds(r.states[x], k).readers
  }

  /** A holder keeps its job; and if that was not current when it got the lock, it never passes the
      guard. */
  lemma {:induction false} HolderKeepsItsJob(r: Run, k: Kind, m: nat, i: nat, h: nat)
    requires IsRun(r) && LocksUntil(r, k, m, i, h)
    ensures var s, t := r.states[i], r.states[h];
      && m < |t.miners| && t.miners[m].kind == k && Holding(t.miners[m].pc)
      && t.miners[m].pc.j == s.miners[m].pc.j < |s.jobs|
      && (s.miners[m].pc.j != Current(s) ==> !t.miners[m].pc.MDraw? && !t.miners[m].pc.MHash?)
    decreases h
  {
    RunKeepsLock(r, k, i);
    RunKeepsLock(r, k, h);
    var s, l := r.states[h - 1], r.labels[h - 1];
    assert Enabled(s, l) && r.states[h] == Apply(s, l);
    if h == i + 1 {
      MineFrame(s, m, k);
    } else {
      HolderKeepsItsJob(r, k, m, i, h - 1);
      JobsOnlyGrow(r, i, h - 1, |r.states[i].jobs| - 1);
      HolderStep(s, l, k, m);
    }
  }

  lemma HolderStep(s: State, l: Label, k: Kind, m: nat)
    requires Enabled(s, l) && m < |s.miners| && Holding(s.miners[m].pc)
    requires m < |Apply(s, l).miners| && Holding(Apply(s, l).miners[m].pc)
    ensures var pc, next := s.miners[m].pc, Apply(s, l).miners[m].pc;
      && next.j == pc.j && Apply(s, l).miners[m].kind == s.miners[m].kind
      && (pc.j != Current(s) && !pc.MDraw? && !pc.MHash? ==> !next.MDraw? && !next.MHash?)
  {
    match l {
      case Mine(n) => MineFrame(s, n, k);
      case _ =>
    }
  }

  /** Every hash of a calm run, inside the window or not, is on the right contents if and only if a
      second look at `ready_id`, on taking the lock, would have found the job's id or none. */
  lemma HashIsRightExactly(r: Run, k: Kind, m: nat, i: nat, h: nat)
    requires IsRun(r) && Calm(r, k) && LocksUntil(r, k, m, i, h)
    requires m < |r.states[h].miners| && r.states[h].miners[m].pc.MHash?
    ensures var s, t := r.states[i], r.states[h];
      var j := t.miners[m].pc.j;
      j < |s.jobs| && j < |t.jobs| && (RightContents(t, k, j) <==>
                         Ds(s, k).ready == INVALID_ID || Ds(s, k).ready == DatasetId(s.jobs[j], k))
  {
    HolderKeepsItsJob(r, k, m, i, h);
    var s, j := r.states[i], r.states[i].miners[m].pc.j;
    assert Enabled(s, r.labels[i]) && r.states[i + 1] == Apply(s, r.labels[i]);
    RecheckDecides(r, k, m, i);
    JobsOnlyGrow(r, i, h, j);
    LockPinsContents(r, k, m, i + 1, h);
    MineFrame(s, m, k);
  }

  // ------------------------------------------------------------------ hashes after a publication

  predicate Hashes(s: State, l: Label, m: nat) {
    l == Mine(m) && m < |s.miners| && s.miners[m].pc.MHash?
  }

  /** The number of hashes miner m completes between two points of a run on jobs older than p. */
  function StaleHashes(r: Run, m: nat, p: nat, a: nat, b: nat): nat
    requires Steps(r) && a <= b < |r.states|
    decreases b - a
  {
    if a == b then 0
    else
      StaleHashes(r, m, p, a, b - 1) + Spent(r.states[b - 1], r.labels[b - 1], m, p)
  }

  predicate InStaleHash(s: State, m: nat, p: nat) {
    && m < |s.miners|
    && (s.miners[m].pc.MDraw? || s.miners[m].pc.MHash?) && s.miners[m].pc.j < p
  }

  /** The stale hashes a miner can still complete, and the ones a step completes. */
  function Budget(s: State, m: nat, p: nat): nat { if InStaleHash(s, m, p) then 1 else 0 }

  function Spent(s: State, l: Label, m: nat, p: nat): nat {
    if Hashes(s, l, m) && s.miners[m].pc.j < p then 1 else 0
  }

  /** Passing the guard takes the newest job, so no step starts a hash of a job older than p. */
  lemma StaleStep(s: State, l: Label, m: nat, p: nat)
    requires Enabled(s, l) && p <= Current(s)
    ensures Budget(Apply(s, l), m, p) + Spent(s, l, m, p) <= Budget(s, m, p)
  {
    match l {
      case Mine(n) => MineFrame(s, n, Rx);
      case ExecStep => assert ExecApply(s).miners == s.miners;
      case _ =>
    }
  }

  lemma {:induction false} StaleHashBudget(r: Run, m: nat, p: nat, a: nat, b: nat)
    requires Steps(r) && a <= b < |r.states| && p <= Current(r.states[a])
    ensures StaleHashes(r, m, p, a, b) + Budget(r.states[b], m, p) <= Budget(r.states[a], m, p)
    decreases b - a
  {
    if a < b {
      StaleHashBudget(r, m, p, a, b - 1);
      JobsOnlyGrow(r, a, b - 1, p);
      var s, l, t := r.states[b - 1], r.labels[b - 1], r.states[b];
      assert Enabled(s, l) && t == Apply(s, l);
      StaleStep(s, l, m, p);
    }
  }

  /** Once job p is published, each miner completes at most one more hash of any older job. */
  lemma OneStaleHashPerPublish(r: Run, m: nat, p: nat, a: nat, b: nat)
    requires Steps(r) && a <= b < |r.states| && p <= Current(r.states[a])
    ensures StaleHashes(r, m, p, a, b) <= 1
  {
    StaleHashBudget(r, m, p, a, b);
  }

  lemma StepKeepsLeaving(s: State, l: Label, m: nat)
    requires JobsInv(s) && Enabled(s, l) && m < |s.miners|
    requires s.miners[m].pc.MUnlock? ==> s.miners[m].pc.j != Current(s)
    ensures var t := Apply(s, l);
      m < |t.miners| && (t.miners[m].pc.MUnlock? ==> t.miners[m].pc.j != Current(t))
  {
    StepKeepsKinds(s, l);
    StepKeepsJob(s, l, Current(s));
    if l.Mine? { MineFrame(s, l.m, Rx); }
  }

  lemma {:induction false} LeavingIsStale(r: Run, m: nat, i: nat)
    requires IsRun(r) && i < |r.states| && m < |r.states[i].miners|
    ensures r.states[i].miners[m].pc.MUnlock? ==> r.states[i].miners[m].pc.j != Current(r.states[i])
  {
    if i > 0 {
      assert Enabled(r.states[i - 1], r.labels[i - 1]);
      StepKeepsKinds(r.states[i - 1], r.labels[i - 1]);
      LeavingIsStale(r, m, i - 1);
      RunKeepsLock(r, Rx, i - 1);
      StepKeepsLeaving(r.states[i - 1], r.labels[i - 1], m);
    }
  }

  /** A miner gives up a job only once a newer one has been published. */
  lemma JobsAreKeptWhileCurrent(r: Run, m: nat, i: nat)
    requires IsRun(r) && i < |r.labels| && m < |r.states[i].miners|
    requires !r.states[i].miners[m].pc.MStart? && r.states[i].miners[m].pc.j == Current(r.states[i])
    ensures var t := r.states[i + 1];
      m < |t.miners| && !t.miners[m].pc.MStart? && t.miners[m].pc.j == r.states[i].miners[m].pc.j
  {
    var s, l := r.states[i], r.labels[i];
    assert Enabled(s, l) && r.states[i + 1] == Apply(s, l);
    LeavingIsStale(r, m, i);
    StepKeepsKinds(s, l);
    if l.Mine? { MineFrame(s, l.m, Rx); }
  }

  /** The idle job stops the miners: until the next publication each completes at most one more hash,
      of whatever job. */
  lemma IdleStopsMining(r: Run, m: nat, a: nat, b: nat)
    requires IsRun(r) && a < b < |r.states| && r.labels[a].PushIdle? && m < |r.states[a].miners|
    requires Current(r.states[b]) == |r.states[a].jobs|
    ensures r.states[b].jobs[Current(r.states[b])].pow == Idle
    ensures StaleHashes(r, m, |r.states[b].jobs|, a + 1, b) <= 1
  {
    var p := |r.states[a].jobs|;
    assert Enabled(r.states[a], r.labels[a]) && r.states[a + 1] == Apply(r.states[a], r.labels[a]);
    JobsOnlyGrow(r, a + 1, b, p);
    OneStaleHashPerPublish(r, m, p, a + 1, b);
    NobodyHashesIdle(r, m, p, a + 1, b);
  }

  lemma {:induction false} NobodyHashesIdle(r: Run, m: nat, p: nat, a: nat, b: nat)
    requires IsRun(r) && a <= b < |r.states| && p < |r.states[a].jobs| && r.states[a].jobs[p].pow == Idle
    ensures StaleHashes(r, m, p + 1, a, b) == StaleHashes(r, m, p, a, b)
    decreases b
  {
    if a < b {
      NobodyHashesIdle(r, m, p, a, b - 1);
      JobsOnlyGrow(r, a, b - 1, p);
      if m < |r.states[b - 1].miners| { RunKeepsKeys(r, Rx, m, b - 1); }
    }
  }

  // ------------------------------------------------------------------ nonces

  /** Every counter value, every draw and every local nonce is a multiple of the chunk. */
  ghost predicate NonceInv(s: State) {
    && s.nonce == W32(NONCE_CHUNK * |s.draws|)
    && (forall i :: 0 <= i < |s.draws| ==> s.draws[i].nonce == W32(NONCE_CHUNK * i))
    && (forall m :: 0 <= m < |s.miners| ==>
          (s.miners[m].pc.MGuard? || s.miners[m].pc.MDraw? || s.miners[m].pc.MHash? ==>
             s.miners[m].pc.nonce % NONCE_CHUNK == 0))
  }

  /** The counter counts draws, and wraps after 2^18 of them. */
  lemma CounterCountsDraws(x: nat)
    ensures W32(NONCE_CHUNK * x) == NONCE_CHUNK * (x % 0x4_0000)
  {
    var q, r := x / 0x4_0000, x % 0x4_0000;
    assert NONCE_CHUNK * x == TWO32 * q + NONCE_CHUNK * r;
  }

  lemma CounterAdvances(x: nat)
    ensures W32(W32(NONCE_CHUNK * x) + NONCE_CHUNK) == W32(NONCE_CHUNK * (x + 1))
  {
    CounterCountsDraws(x);
    CounterCountsDraws(x + 1);
  }

  lemma StepKeepsNonces(s: State, l: Label)
    requires NonceInv(s) && Enabled(s, l)
    ensures NonceInv(Apply(s, l))
  {
    if l.Mine? {
      CounterAdvances(|s.draws|);
      CounterCountsDraws(|s.draws|);
      MineFrame(s, l.m, Rx);
    }
  }

  /** In every run a fresh draw is always due: the branch that increments the local nonce is never
      taken, and so only the first nonce of each chunk is ever hashed. */
  lemma {:induction false} EveryHashDrawsAChunk(r: Run, i: nat)
    requires IsRun(r) && i < |r.states|
    ensures NonceInv(r.states[i])
    ensures r.states[i].nonce % NONCE_CHUNK == 0
    ensures forall m :: 0 <= m < |r.states[i].miners| && r.states[i].miners[m].pc.MDraw? ==>
              r.states[i].miners[m].pc.nonce % NONCE_CHUNK == 0
  {
    if i > 0 {
      EveryHashDrawsAChunk(r, i - 1);
      StepKeepsNonces(r.states[i - 1], r.labels[i - 1]);
    }
    CounterCountsDraws(|r.states[i].draws|);
  }

  /** Between two resets of the counter, over all threads and interleavings, two draws give the
      same nonce exactly when they are a multiple of 2^18 draws apart. */
  lemma DrawsAreExclusive(r: Run, i: nat, a: nat, b: nat)
    requires IsRun(r) && i < |r.states| && a < |r.states[i].draws| && b < |r.states[i].draws|
    ensures r.states[i].draws[a].nonce == r.states[i].draws[b].nonce
            <==> a % 0x4_0000 == b % 0x4_0000
  {
    EveryHashDrawsAChunk(r, i);
    CounterCountsDraws(a);
    CounterCountsDraws(b);
  }
}
