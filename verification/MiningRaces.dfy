/** Runs in which the protocol goes wrong, for any jobs of different dataset ids. */
module MiningRaces {
  import opened Words
  import opened Vector32
  import opened MiningProtocol
  import opened MiningSafety
  import opened MiningSteps

  /** Overlapping RandomX rebuilds: the first builder announces the id of the second seed over the
      contents of the first. For any two RandomX jobs with different ids, and any RandomX miner,
      some run hashes the second job on the first job's dataset. */
  lemma RandomXOverlapRace(s: State, m: nat, a: Job, b: Job) returns (incoherent: State, wrong: State)
    requires Init(s) && m < |s.miners| && s.miners[m].kind == Rx
    requires Uses(a, Rx) && Uses(b, Rx) && DatasetId(a, Rx) != DatasetId(b, Rx)
    ensures Leads(s, incoherent, Rx, Anything) && !Coherent(incoherent.rx)
    ensures Leads(s, wrong, Rx, Anything) && WrongHash(wrong, Rx, m, true)
  {
    var n := s.rx.spawned;
    IdIsNeverInvalid(a.seed);
    IdIsNeverInvalid(b.seed);
    LeadsNowhere(s, Rx, Anything);
    var s1 := ThenPublish(s, s, a, Rx, Anything);
    var s2 := WithDs(s1, Rx, AfterFill(s1.rx, Rx, n));
    FillLeads(s1, Rx, n, Rx, Anything);
    LeadsOn(s, s1, s2, Rx, Anything);
    var s3 := ThenPublish(s, s2, b, Rx, Anything);
    incoherent := WithDs(s3, Rx, AfterAnnounce(s3.rx, Rx, n));
    AnnounceLeads(s3, Rx, n, Rx, Anything);
    LeadsOn(s, s3, incoherent, Rx, Anything);
    assert incoherent.rx.ready == GetId(b.seed) && incoherent.rx.contents == Built(SeedKey(a.seed));
    var s5 := ThenCheck(s, incoherent, m, Rx, Anything);
    wrong := ThenHash(s, s5, m, Rx, Anything);
  }

  /** Overlapping ProgPow rebuilds: the dataset stays coherent, but a miner whose check passed can
      find, behind the lock, the contents a late builder of another epoch has left. For any two
      ProgPow jobs of different epochs: publish a, b, a again; let the first builder finish, the
      miner check, the second builder finish, the miner lock and hash. */
  lemma ProgPowOverlapRace(s: State, m: nat, a: Job, b: Job) returns (wrong: State)
    requires Init(s) && m < |s.miners| && s.miners[m].kind == Pp
    requires Uses(a, Pp) && Uses(b, Pp) && a.epoch != b.epoch
    ensures Leads(s, wrong, Pp, Anything) && WrongHash(wrong, Pp, m, true)
  {
    var n := s.pp.spawned;
    var s3 := ThreeJobs(s, a, b);
    var s4 := ThenRebuild(s, s3, Pp, n, Anything);
    var s5 := ThenCheck(s, s4, m, Pp, Anything);
    assert s5.pp.builders == s3.pp.builders - {n};
    var s6 := ThenRebuild(s, s5, Pp, n + 1, Anything);
    assert s6.pp.contents == Built(EpochKey(b.epoch));
    wrong := ThenHash(s, s6, m, Pp, Anything);
  }

  lemma ThreeJobs(s: State, a: Job, b: Job) returns (t: State)
    requires Init(s) && Uses(a, Pp) && Uses(b, Pp) && a.epoch != b.epoch
    ensures Leads(s, t, Pp, Anything)
    ensures t.exec == EReady && t.touched == {} && t.miners == s.miners && t.jobs == s.jobs + [a, b, a]
    ensures t.pp.writer == None && t.pp.readers == {}
    ensures var n := s.pp.spawned;
      && n in t.pp.builders && t.pp.builders[n] == Builder(a.epoch, Spawned)
      && n + 1 in t.pp.builders && t.pp.builders[n + 1] == Builder(b.epoch, Spawned)
  {
    LeadsNowhere(s, Pp, Anything);
    var s1 := ThenPublish(s, s, a, Pp, Anything);
    var s2 := ThenPublish(s, s1, b, Pp, Anything);
    t := ThenPublish(s, s2, a, Pp, Anything);
  }

  /** The window of the executor: with no overlap at all, a miner that checked before the
      window and locks inside it, after a fast rebuild, hashes the old job on the new contents. */
  lemma WindowRace(s: State, m: nat, a: Job, b: Job) returns (wrong: State)
    requires Init(s) && m < |s.miners| && s.miners[m].kind == Pp
    requires Uses(a, Pp) && Uses(b, Pp) && a.epoch != b.epoch
    ensures Leads(s, wrong, Pp, NoOverlap) && WrongHash(wrong, Pp, m, false)
  {
    var n := s.pp.spawned;
    LeadsNowhere(s, Pp, NoOverlap);
    var s1 := ThenPublish(s, s, a, Pp, NoOverlap);
    var s2 := ThenRebuild(s, s1, Pp, n, NoOverlap);
    assert s2.pp.builders == map[];
    var s3 := ThenCheck(s, s2, m, Pp, NoOverlap);
    var s4 := Unpublished(s3, b);
    NewJobLeads(s3, b, Pp, NoOverlap);
    LeadsOn(s, s3, s4, Pp, NoOverlap);
    assert s4.pp == Reseeded(s3.pp, Pp, b) && s4.miners == s3.miners && s4.jobs == s3.jobs;
    var s5 := ThenRebuild(s, s4, Pp, n + 1, NoOverlap);
    assert s5.pp.contents == Built(EpochKey(b.epoch)) && Pp in s5.touched;
    wrong := ThenHash(s, s5, m, Pp, NoOverlap);
  }

  /** The current job needs dataset k, which is announced for something else, nobody is rebuilding
      it, and `loaded_id` says that nobody has to. */
  predicate Stalled(s: State, k: Kind) {
    && s.exec == EReady && s.jobs != [] && Uses(s.jobs[Current(s)], k)
    && Ds(s, k).builders == map[]
    && Ds(s, k).loaded == DatasetId(s.jobs[Current(s)], k)
    && Ds(s, k).ready != Ds(s, k).loaded
  }

  /** Two overlapping builders that take the lock in the other order lose the newer epoch. */
  lemma OverlapLosesARebuild(s: State, a: Job, b: Job) returns (stalled: State)
    requires Init(s) && Uses(a, Pp) && Uses(b, Pp) && a.epoch != b.epoch
    ensures Leads(s, stalled, Pp, Anything) && Stalled(stalled, Pp)
  {
    var n := s.pp.spawned;
    LeadsNowhere(s, Pp, Anything);
    var s1 := ThenPublish(s, s, a, Pp, Anything);
    var s2 := ThenPublish(s, s1, b, Pp, Anything);
    var s3 := ThenRebuild(s, s2, Pp, n + 1, Anything);
    assert n in s3.pp.builders && s3.pp.builders[n] == Builder(a.epoch, Spawned);
    stalled := ThenRebuild(s, s3, Pp, n, Anything);
    assert stalled.pp.builders == map[];
  }

  /** Dataset k is announced for something else than id, which `loaded_id` claims, and nobody is
      going to change that. */
  predicate Unready(s: State, k: Kind, id: nat) {
    && Ds(s, k).builders == map[] && Ds(s, k).loaded == id && Ds(s, k).ready != id
    && !WorksOn(s.exec, k) && (s.exec != EReady ==> DatasetId(s.exec.job, k) == id)
  }

  /** Miner m's check of `ready_id` for this id has passed. */
  predicate PastCheck(s: State, k: Kind, id: nat, m: nat) {
    && m < |s.miners| && s.miners[m].kind == k && (s.miners[m].pc.MLock? || Holding(s.miners[m].pc))
    && s.miners[m].pc.j < |s.jobs| && DatasetId(s.jobs[s.miners[m].pc.j], k) == id
  }

  /** A stalled dataset stays so until the pool sends a job of another id, and no miner's check for
      the id passes. Miners past their check at the start are not stopped: on the current job they
      hash, on contents of another id. */
  lemma {:induction false} StallPersists(r: Run, k: Kind, i: nat, h: nat, m: nat)
    requires IsRun(r) && i <= h < |r.states| && Stalled(r.states[i], k)
    requires forall x :: i <= x < h && r.labels[x].NewJob? ==>
      DatasetId(r.labels[x].job, k) == Ds(r.states[i], k).loaded
    ensures var id := Ds(r.states[i], k).loaded;
      && Unready(r.states[h], k, id)
      && (PastCheck(r.states[h], k, id, m) ==> PastCheck(r.states[i], k, id, m))
    decreases h
  {
    if i < h {
      StallPersists(r, k, i, h - 1, m);
      RunKeepsLock(r, k, h - 1);
      assert Enabled(r.states[h - 1], r.labels[h - 1]);
      StallStep(r.states[h - 1], r.labels[h - 1], k, Ds(r.states[i], k).loaded, m);
    }
  }

  lemma StallStep(s: State, l: Label, k: Kind, id: nat, m: nat)
    requires Unready(s, k, id) && JobsInv(s) && Enabled(s, l)
    requires l.NewJob? ==> DatasetId(l.job, k) == id
    ensures Unready(Apply(s, l), k, id)
    ensures PastCheck(Apply(s, l), k, id, m) ==> PastCheck(s, k, id, m)
  {
    match l {
      case Mine(n) => MineFrame(s, n, k);
      case ExecStep =>
      case _ =>
    }
    NobodyPasses(s, l, k, id, m);
  }

  lemma NobodyPasses(s: State, l: Label, k: Kind, id: nat, m: nat)
    requires Ds(s, k).ready != id && JobsInv(s) && Enabled(s, l)
    ensures PastCheck(Apply(s, l), k, id, m) ==> PastCheck(s, k, id, m)
  {
    if m < |s.miners| { StepKeepsJob(s, l, JobOf(s.miners[m].pc)); }
    if l.Mine? { MineFrame(s, l.m, k); }
  }

  /** A reset of the shared counter, which any job message past its first check causes even when
      it is then rejected, makes a miner of an unchanged job draw a nonce it has hashed already. */
  lemma ResetRepeatsANonce(s: State, m: nat, k: Kind) returns (t: State, h: State, u: State)
    requires s.exec == EReady && m < |s.miners| && s.miners[m].pc.MGuard?
    requires s.miners[m].pc.j == Current(s) && s.miners[m].pc.nonce % NONCE_CHUNK == 0
    ensures Leads(s, t, k, NoOverlap) && Leads(t, u, k, NoOverlap)
    ensures t.jobs == s.jobs && u.jobs == s.jobs && t.draws == [Draw(m, 0)] && u.draws == [Draw(m, 0)]
    ensures m < |t.miners| && t.miners[m].pc.MHash? && t.miners[m].pc.nonce == 0
    ensures h.miners == s.miners[m := s.miners[m].(pc := MGuard(Current(s), 0))]
    ensures Leads(t, h, k, NoOverlap) && Leads(h, u, k, NoOverlap) && u.miners == t.miners
  {
    t := DrawAfterReset(s, m, k);
    h := MineApply(t, m);
    LeadsByOne(t, Mine(m), h, k, NoOverlap);
    u := DrawAfterReset(h, m, k);
    LeadsOn(t, h, u, k, NoOverlap);
  }

  lemma DrawAfterReset(s: State, m: nat, k: Kind) returns (t: State)
    requires s.exec == EReady && m < |s.miners| && s.miners[m].pc.MGuard?
    requires s.miners[m].pc.j == Current(s) && s.miners[m].pc.nonce % NONCE_CHUNK == 0
    ensures Leads(s, t, k, NoOverlap)
    ensures t == MoveTo(s, m, MHash(Current(s), 0, s.miners[m].kind !in s.touched))
                 .(nonce := NONCE_CHUNK, draws := [Draw(m, 0)])
  {
    var s1 := s.(nonce := 0, draws := []);
    LeadsByOne(s, ResetNonce, s1, k, NoOverlap);
    var s2 := MineApply(s1, m);
    LeadsNext(s, s1, Mine(m), s2, k, NoOverlap);
    t := MineApply(s2, m);
    LeadsNext(s, s2, Mine(m), t, k, NoOverlap);
  }
}
