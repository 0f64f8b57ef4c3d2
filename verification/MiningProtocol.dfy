/** The concurrent core of the miner as a state machine.

    One executor thread adjusts the two datasets and publishes immutable jobs, detached builder
    threads rebuild a dataset under its exclusive lock, and any number of miner threads check
    `ready_id`, take the shared lock, draw nonces and hash while the job pointer has not moved.
    Each label is one atomic step of one thread; every interleaving of labels is a run. */
module MiningProtocol {
  import opened Words
  import opened Vector32

  const NONCE_CHUNK: nat := 16384

  datatype Kind = Rx | Pp

  datatype PowType = Idle | RandomX | ProgPow | Cuckoo

  type Epoch = e: nat | e < INVALID_ID

  /** The fields of a miner_job the threads synchronise on. A job is identified by its index in
      the list of published jobs, as the source identifies it by its address: jobs are never
      freed, so neither is ever used again. */
  datatype Job = Job(pow: PowType, seed: V32, epoch: Epoch)

  predicate Uses(job: Job, k: Kind) {
    job.pow == (if k == Rx then RandomX else ProgPow)
  }

  /** What a dataset is computed from. */
  datatype Key = SeedKey(seed: V32) | EpochKey(epoch: Epoch)

  function KeyOf(job: Job, k: Kind): Key {
    if k == Rx then SeedKey(job.seed) else EpochKey(job.epoch)
  }

  function KeyId(key: Key): nat {
    match key
    case SeedKey(seed) => GetId(seed)
    case EpochKey(epoch) => epoch
  }

  /** The `dataset_id` field of the job. */
  function DatasetId(job: Job, k: Kind): nat { KeyId(KeyOf(job, k)) }

  datatype Contents = Empty | Torn | Built(key: Key)

  datatype BuilderPc = Spawned | Locked | Filling(source: Key) | Filled(source: Key) | Announced

  datatype Builder = Builder(epoch: Epoch, pc: BuilderPc)

  /** A dataset: its two atomic ids, the shared seed field, the contents, and the lock. */
  datatype Dataset = Dataset(
    loaded: nat, ready: nat, seed: V32, contents: Contents,
    writer: Option<nat>, readers: set<nat>,
    builders: map<nat, Builder>, spawned: nat)

  datatype ExecPc =
    | EReady
    | ECheck(k: Kind, job: Job)
    | ELoad(k: Kind, job: Job)
    | EInvalidate(k: Kind, job: Job)
    | ESeed(k: Kind, job: Job)
    | ESpawn(k: Kind, job: Job)
    | EPublish(job: Job)

  datatype MinerPc =
    | MStart
    | MCopied(j: nat)
    | MIdleLoop(j: nat)
    | MCheck(j: nat)
    | MCheckJob(j: nat)
    | MLock(j: nat)
    | MGuard(j: nat, nonce: uint32)
    | MDraw(j: nat, nonce: uint32, clean: bool)
    | MHash(j: nat, nonce: uint32, clean: bool)
    | MUnlock(j: nat)

  datatype Miner = Miner(kind: Kind, pc: MinerPc)

  datatype Draw = Draw(miner: nat, nonce: uint32)

  /** `touched` and `draws` are history: the datasets the executor has begun to change for a job
      it has not published yet, and the chunks drawn since the last reset of the counter. */
  datatype State = State(
    rx: Dataset, pp: Dataset, exec: ExecPc, touched: set<Kind>, jobs: seq<Job>,
    miners: seq<Miner>, nonce: uint32, draws: seq<Draw>)

  function Ds(s: State, k: Kind): Dataset { if k == Rx then s.rx else s.pp }

  function WithDs(s: State, k: Kind, d: Dataset): State {
    if k == Rx then s.(rx := d) else s.(pp := d)
  }

  function Current(s: State): int { |s.jobs| - 1 }

  // ------------------------------------------------------------------ steps

  datatype Label =
    | NewJob(job: Job)
    | PushIdle(idle: Job)
    | ResetNonce
    | ExecStep
    | Build(k: Kind, b: nat)
    | Mine(m: nat)

  /** A fresh dataset object. The seed field is uninitialised, so it may hold any value. */
  predicate FreshDataset(d: Dataset) {
    && d.loaded == INVALID_ID && d.ready == INVALID_ID && d.contents == Empty
    && d.writer == None && d.readers == {} && d.builders == map[]
  }

  /** The idle job is published before the first miner thread starts. */
  predicate Init(s: State) {
    && FreshDataset(s.rx) && FreshDataset(s.pp)
    && s.exec == EReady && s.touched == {}
    && |s.jobs| == 1 && s.jobs[0].pow == Idle
    && (forall m :: 0 <= m < |s.miners| ==> s.miners[m].pc == MStart)
    && s.nonce == 0 && s.draws == []
  }

  predicate Enabled(s: State, l: Label) {
    match l
    case NewJob(job) => s.exec == EReady && job.pow != Idle
    case PushIdle(job) =>
      s.exec == EReady && job.pow == Idle && s.jobs != [] && s.jobs[|s.jobs| - 1].pow != Idle
    case ResetNonce => s.exec == EReady
    case ExecStep => s.exec != EReady
    case Build(k, b) =>
      && b in Ds(s, k).builders
      && (Ds(s, k).builders[b].pc == Spawned ==> Ds(s, k).writer == None && Ds(s, k).readers == {})
    case Mine(m) =>
      && m < |s.miners|
      && (s.miners[m].pc.MLock? ==> Ds(s, s.miners[m].kind).writer == None)
      && JobOf(s.miners[m].pc) < |s.jobs|
  }

  function JobOf(pc: MinerPc): nat { if pc.MStart? then 0 else pc.j }

  function Apply(s: State, l: Label): State
    requires Enabled(s, l)
  {
    match l
    case NewJob(job) => s.(exec := ECheck(Rx, job))
    case PushIdle(job) => s.(jobs := s.jobs + [job])
    case ResetNonce => s.(nonce := 0, draws := [])
    case ExecStep => ExecApply(s)
    case Build(k, b) => WithDs(s, k, BuildApply(Ds(s, k), k, b))
    case Mine(m) => MineApply(s, m)
  }

  /** on_pool_new_job: adjust RandomX, adjust ProgPow, publish. */
  function ExecApply(s: State): State
    requires s.exec != EReady
  {
    match s.exec
    case ECheck(k, job) =>
      s.(exec := if Ds(s, k).loaded == DatasetId(job, k) then AfterAdjust(k, job) else ELoad(k, job))
    case ELoad(k, job) =>
      WithDs(s, k, Ds(s, k).(loaded := DatasetId(job, k)))
      .(exec := EInvalidate(k, job), touched := s.touched + {k})
    case EInvalidate(k, job) =>
      WithDs(s, k, Ds(s, k).(ready := INVALID_ID))
      .(exec := if k == Rx then ESeed(k, job) else ESpawn(k, job))
    case ESeed(k, job) =>
      WithDs(s, k, Ds(s, k).(seed := job.seed)).(exec := ESpawn(k, job))
    case ESpawn(k, job) =>
      var d := Ds(s, k);
      WithDs(s, k, d.(builders := d.builders[d.spawned := Builder(job.epoch, Spawned)],
                      spawned := d.spawned + 1))
      .(exec := AfterAdjust(k, job))
    case EPublish(job) =>
      s.(jobs := s.jobs + [job], exec := EReady, touched := {})
  }

  function AfterAdjust(k: Kind, job: Job): ExecPc {
    if k == Rx then ECheck(Pp, job) else EPublish(job)
  }

  /** The RandomX builder reads the shared seed field; the ProgPow builder carries its epoch. */
  function Source(d: Dataset, k: Kind, b: Builder): Key {
    if k == Rx then SeedKey(d.seed) else EpochKey(b.epoch)
  }

  function BuildApply(d: Dataset, k: Kind, b: nat): Dataset
    requires b in d.builders
  {
    var t := d.builders[b];
    match t.pc
    case Spawned => d.(writer := Some(b), builders := d.builders[b := t.(pc := Locked)])
    case Locked =>
      d.(contents := Torn, builders := d.builders[b := t.(pc := Filling(Source(d, k, t)))])
    case Filling(key) =>
      d.(contents := Built(key), builders := d.builders[b := t.(pc := Filled(key))])
    case Filled(_) =>
      d.(ready := KeyId(Source(d, k, t)), builders := d.builders[b := t.(pc := Announced)])
    case Announced => d.(writer := None, builders := d.builders - {b})
  }

  /** thread_main, dataset_check_loop, idle_loop and the mining loop: where a miner goes next. */
  function NextPc(s: State, k: Kind, pc: MinerPc): MinerPc
    requires JobOf(pc) < |s.jobs|
  {
    match pc
    case MStart => MCopied(|s.jobs| - 1)
    case MCopied(j) => if Uses(s.jobs[j], k) then MCheck(j) else MIdleLoop(j)
    case MIdleLoop(j) => if Current(s) == j then MIdleLoop(j) else MStart
    case MCheck(j) => if Ds(s, k).ready == DatasetId(s.jobs[j], k) then MLock(j) else MCheckJob(j)
    case MCheckJob(j) => if Current(s) == j then MCheck(j) else MStart
    case MLock(j) => MGuard(j, 0)
    case MGuard(j, nonce) => if Current(s) == j then MDraw(j, nonce, k !in s.touched) else MUnlock(j)
    case MDraw(j, nonce, clean) => MHash(j, if DrawsChunk(pc) then s.nonce else W32(nonce + 1), clean)
    case MHash(j, nonce, _) => MGuard(j, nonce)
    case MUnlock(j) => MStart
  }

  /** The test before a hash: the local nonce is at the start of a chunk. */
  predicate DrawsChunk(pc: MinerPc) {
    pc.MDraw? && pc.nonce % NONCE_CHUNK == 0
  }

  /** Besides moving, a miner takes and releases the shared lock and draws from the counter. */
  function MineApply(s: State, m: nat): State
    requires m < |s.miners| && JobOf(s.miners[m].pc) < |s.jobs|
  {
    var k, pc := s.miners[m].kind, s.miners[m].pc;
    var t := MoveTo(s, m, NextPc(s, k, pc));
    if pc.MLock? then WithDs(t, k, Ds(t, k).(readers := Ds(t, k).readers + {m}))
    else if pc.MUnlock? then WithDs(t, k, Ds(t, k).(readers := Ds(t, k).readers - {m}))
    else if DrawsChunk(pc) then t.(nonce := W32(s.nonce + NONCE_CHUNK), draws := s.draws + [Draw(m, s.nonce)])
    else t
  }

  function MoveTo(s: State, m: nat, pc: MinerPc): State
    requires m < |s.miners|
  {
    s.(miners := s.miners[m := s.miners[m].(pc := pc)])
  }

  // ------------------------------------------------------------------ runs

  datatype Run = Run(states: seq<State>, labels: seq<Label>)

  predicate Steps(r: Run) {
    && |r.states| == |r.labels| + 1
    && forall i {:trigger Enabled(r.states[i], r.labels[i])} :: 0 <= i < |r.labels| ==>
         Enabled(r.states[i], r.labels[i]) && r.states[i + 1] == Apply(r.states[i], r.labels[i])
  }

  predicate IsRun(r: Run) { Steps(r) && Init(r.states[0]) }

  /** A rebuild of the dataset may start: every RandomX builder has announced, every ProgPow builder
      has the lock. */
  predicate MayRebuild(d: Dataset, k: Kind) {
    forall b :: b in d.builders ==> if k == Rx then d.builders[b].pc == Announced else d.builders[b].pc != Spawned
  }

  /** The step stores `loaded_id`, and so starts a rebuild. */
  predicate StartsRebuild(s: State, l: Label, k: Kind) {
    l.ExecStep? && s.exec.ELoad? && s.exec.k == k
  }

  predicate CalmStep(s: State, l: Label, k: Kind) {
    StartsRebuild(s, l, k) ==> MayRebuild(Ds(s, k), k)
  }

  /** Every rebuild of dataset k starts when it may. */
  predicate Calm(r: Run, k: Kind)
    requires Steps(r)
  {
    forall i {:trigger r.labels[i]} :: 0 <= i < |r.labels| ==> CalmStep(r.states[i], r.labels[i], k)
  }

  /** The thread is between taking and releasing the shared lock. */
  predicate Holding(pc: MinerPc) { pc.MGuard? || pc.MDraw? || pc.MHash? || pc.MUnlock? }
}
