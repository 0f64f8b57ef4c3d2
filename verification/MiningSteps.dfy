/** Runs built step by step: what leads to what, in steps as large as a thread's next few. */
module MiningSteps {
  import opened Words
  import opened Vector32
  import opened MiningProtocol
  import opened MiningSafety

  /** A limit on the steps of a run: rebuilds of a dataset that never overlap, or nothing new from
      the pool, so that the threads only finish what they have begun. */
  datatype Limit = Anything | NoOverlap | NothingNew

  predicate Allowed(s: State, l: Label, k: Kind, limit: Limit) {
    match limit
    case Anything => true
    case NoOverlap => StartsRebuild(s, l, k) ==> Ds(s, k).builders == map[]
    case NothingNew => l.ExecStep? || l.Build? || l.Mine?
  }

  /** Steps within the limit from s to t. */
  predicate Connects(r: Run, s: State, t: State, k: Kind, limit: Limit) {
    && Steps(r) && r.states[0] == s && r.states[|r.labels|] == t
    && forall i {:trigger r.labels[i]} :: 0 <= i < |r.labels| ==> Allowed(r.states[i], r.labels[i], k, limit)
  }

  /** s leads to t by some run within the limit. */
  ghost predicate Leads(s: State, t: State, k: Kind, limit: Limit) {
    exists r: Run :: Connects(r, s, t, k, limit)
  }

  lemma LeadsByOne(s: State, l: Label, t: State, k: Kind, limit: Limit)
    requires Enabled(s, l) && t == Apply(s, l) && Allowed(s, l, k, limit)
    ensures Leads(s, t, k, limit)
  {
    var r := Run([s, t], [l]);
    assert Connects(r, s, t, k, limit);
  }

  /** Two runs, the second from where the first ends. */
  function Joined(a: Run, b: Run): Run
    requires Steps(b)
  {
    Run(a.states + b.states[1..], a.labels + b.labels)
  }

  lemma LeadsOn(s: State, t: State, u: State, k: Kind, limit: Limit)
    requires Leads(s, t, k, limit) && Leads(t, u, k, limit)
    ensures Leads(s, u, k, limit)
  {
    var a: Run :| Connects(a, s, t, k, limit);
    var b: Run :| Connects(b, t, u, k, limit);
    var r := Joined(a, b);
    forall i | 0 <= i < |r.labels|
      ensures Enabled(r.states[i], r.labels[i]) && r.states[i + 1] == Apply(r.states[i], r.labels[i])
      ensures Allowed(r.states[i], r.labels[i], k, limit)
    {
      StepOfJoined(a, b, s, t, u, k, limit, i);
    }
    assert Connects(r, s, u, k, limit);
  }

  predicate JoinsAt(a: Run, b: Run, k: Kind, limit: Limit, i: nat)
    requires Steps(a) && Steps(b) && i < |a.labels| + |b.labels|
  {
    var r := Joined(a, b);
    && Enabled(r.states[i], r.labels[i]) && r.states[i + 1] == Apply(r.states[i], r.labels[i])
    && Allowed(r.states[i], r.labels[i], k, limit)
  }

  lemma StepOfJoined(a: Run, b: Run, s: State, t: State, u: State, k: Kind, limit: Limit, i: nat)
    requires Connects(a, s, t, k, limit) && Connects(b, t, u, k, limit) && i < |a.labels| + |b.labels|
    ensures JoinsAt(a, b, k, limit, i)
  {
    var r := Joined(a, b);
    if i < |a.labels| {
      assert r.labels[i] == a.labels[i] && r.states[i] == a.states[i] && r.states[i + 1] == a.states[i + 1];
    } else {
      var n := i - |a.labels|;
      assert r.labels[i] == b.labels[n] && r.states[i] == b.states[n] && r.states[i + 1] == b.states[n + 1];
    }
  }

  /** One step more. */
  lemma LeadsNext(s: State, t: State, l: Label, u: State, k: Kind, limit: Limit)
    requires Leads(s, t, k, limit) && Enabled(t, l) && u == Apply(t, l) && Allowed(t, l, k, limit)
    ensures Leads(s, u, k, limit)
  {
    LeadsByOne(t, l, u, k, limit);
    LeadsOn(s, t, u, k, limit);
  }

  // ------------------------------------------------------------------ large steps

  /** adjust_to_seed / adjust_to_block as one step. */
  function AdjustTo(s: State, k: Kind, job: Job): State {
    var d := Ds(s, k);
    if d.loaded == DatasetId(job, k) then s
    else
      WithDs(s, k, Spawning(d.(loaded := DatasetId(job, k), ready := INVALID_ID,
                               seed := if k == Rx then job.seed else d.seed), job))
      .(touched := s.touched + {k})
  }

  function Spawning(d: Dataset, job: Job): Dataset {
    d.(builders := d.builders[d.spawned := Builder(job.epoch, Spawned)], spawned := d.spawned + 1)
  }

  lemma AdjustLeads(s: State, k: Kind, job: Job, c: Kind, limit: Limit)
    requires s.exec == ECheck(k, job)
    requires limit == NoOverlap && c == k ==> Ds(s, k).builders == map[]
    ensures Leads(s, AdjustTo(s, k, job).(exec := AfterAdjust(k, job)), c, limit)
  {
    var d := Ds(s, k);
    if d.loaded == DatasetId(job, k) {
      LeadsByOne(s, ExecStep, s.(exec := AfterAdjust(k, job)), c, limit);
    } else {
      var s1 := s.(exec := ELoad(k, job));
      LeadsByOne(s, ExecStep, s1, c, limit);
      var d2 := d.(loaded := DatasetId(job, k));
      var s2 := WithDs(s, k, d2).(exec := EInvalidate(k, job), touched := s.touched + {k});
      LeadsNext(s, s1, ExecStep, s2, c, limit);
      InvalidatedLeads(s, s2, k, job, c, limit);
      assert d2.(ready := INVALID_ID, seed := if k == Rx then job.seed else d2.seed)
        == d.(loaded := DatasetId(job, k), ready := INVALID_ID, seed := if k == Rx then job.seed else d.seed);
    }
  }

  lemma InvalidatedLeads(o: State, s: State, k: Kind, job: Job, c: Kind, limit: Limit)
    requires Leads(o, s, c, limit) && s.exec == EInvalidate(k, job)
    ensures var d := Ds(s, k).(ready := INVALID_ID, seed := if k == Rx then job.seed else Ds(s, k).seed);
      Leads(o, WithDs(s, k, Spawning(d, job)).(exec := AfterAdjust(k, job)), c, limit)
  {
    var d3 := Ds(s, k).(ready := INVALID_ID);
    var s3 := WithDs(s, k, d3).(exec := if k == Rx then ESeed(k, job) else ESpawn(k, job));
    LeadsNext(o, s, ExecStep, s3, c, limit);
    var d4 := d3.(seed := if k == Rx then job.seed else d3.seed);
    var s4 := WithDs(s, k, d4).(exec := ESpawn(k, job));
    if k == Rx {
      LeadsNext(o, s3, ExecStep, s4, c, limit);
    } else {
      assert s4 == s3;
    }
    var s5 := WithDs(s, k, Spawning(d4, job)).(exec := AfterAdjust(k, job));
    LeadsNext(o, s4, ExecStep, s5, c, limit);
  }

  /** on_pool_new_job, before and after its publication. */
  function Unpublished(s: State, job: Job): State {
    AdjustTo(AdjustTo(s, Rx, job), Pp, job).(exec := EPublish(job))
  }

  function Published(s: State, job: Job): State {
    Unpublished(s, job).(jobs := s.jobs + [job], exec := EReady, touched := {})
  }

  lemma NewJobLeads(s: State, job: Job, k: Kind, limit: Limit)
    requires s.exec == EReady && job.pow != Idle
    requires limit != NothingNew && (limit == NoOverlap ==> Ds(s, k).builders == map[])
    ensures Leads(s, Unpublished(s, job), k, limit)
    ensures Leads(s, Published(s, job), k, limit)
  {
    var s0 := s.(exec := ECheck(Rx, job));
    LeadsByOne(s, NewJob(job), s0, k, limit);
    var s1 := AdjustTo(s0, Rx, job).(exec := ECheck(Pp, job));
    AdjustLeads(s0, Rx, job, k, limit);
    LeadsOn(s, s0, s1, k, limit);
    var s2 := AdjustTo(s1, Pp, job).(exec := EPublish(job));
    AdjustLeads(s1, Pp, job, k, limit);
    LeadsOn(s, s1, s2, k, limit);
    assert s2 == Unpublished(s, job);
    LeadsNext(s, s2, ExecStep, Published(s, job), k, limit);
  }

  /** A builder that has filled the dataset and not yet announced it. */
  function AfterFill(d: Dataset, k: Kind, b: nat): Dataset
    requires b in d.builders
  {
    var t := d.builders[b];
    d.(writer := Some(b), contents := Built(Source(d, k, t)),
       builders := d.builders[b := t.(pc := Filled(Source(d, k, t)))])
  }

  lemma FillLeads(s: State, k: Kind, b: nat, c: Kind, limit: Limit)
    requires b in Ds(s, k).builders && Ds(s, k).builders[b].pc == Spawned
    requires Ds(s, k).writer == None && Ds(s, k).readers == {}
    ensures Leads(s, WithDs(s, k, AfterFill(Ds(s, k), k, b)), c, limit)
  {
    var d := Ds(s, k);
    var t := d.builders[b];
    var d1 := d.(writer := Some(b), builders := d.builders[b := t.(pc := Locked)]);
    LeadsByOne(s, Build(k, b), WithDs(s, k, d1), c, limit);
    var d2 := d1.(contents := Torn, builders := d.builders[b := t.(pc := Filling(Source(d, k, t)))]);
    assert d2.builders == d1.builders[b := t.(pc := Filling(Source(d, k, t)))];
    LeadsNext(s, WithDs(s, k, d1), Build(k, b), WithDs(s, k, d2), c, limit);
    var d3 := AfterFill(d, k, b);
    assert d3.builders == d2.builders[b := t.(pc := Filled(Source(d, k, t)))];
    LeadsNext(s, WithDs(s, k, d2), Build(k, b), WithDs(s, k, d3), c, limit);
  }

  /** A builder's announcement and release. */
  function AfterAnnounce(d: Dataset, k: Kind, b: nat): Dataset
    requires b in d.builders
  {
    d.(ready := KeyId(Source(d, k, d.builders[b])), writer := None, builders := d.builders - {b})
  }

  lemma AnnounceLeads(s: State, k: Kind, b: nat, c: Kind, limit: Limit)
    requires b in Ds(s, k).builders && Ds(s, k).builders[b].pc.Filled?
    ensures Leads(s, WithDs(s, k, AfterAnnounce(Ds(s, k), k, b)), c, limit)
  {
    var d := Ds(s, k);
    var d1 := BuildApply(d, k, b);
    LeadsByOne(s, Build(k, b), WithDs(s, k, d1), c, limit);
    assert BuildApply(d1, k, b).builders == d.builders - {b};
    LeadsNext(s, WithDs(s, k, d1), Build(k, b), WithDs(s, k, AfterAnnounce(d, k, b)), c, limit);
  }

  /** A builder's whole life. */
  function Rebuilt(d: Dataset, k: Kind, b: nat): Dataset
    requires b in d.builders
  {
    var key := Source(d, k, d.builders[b]);
    d.(contents := Built(key), ready := KeyId(key), builders := d.builders - {b})
  }

  lemma RebuildLeads(s: State, k: Kind, b: nat, c: Kind, limit: Limit)
    requires b in Ds(s, k).builders && Ds(s, k).builders[b].pc == Spawned
    requires Ds(s, k).writer == None && Ds(s, k).readers == {}
    ensures Leads(s, WithDs(s, k, Rebuilt(Ds(s, k), k, b)), c, limit)
  {
    var d := Ds(s, k);
    var t := WithDs(s, k, AfterFill(d, k, b));
    FillLeads(s, k, b, c, limit);
    AnnounceLeads(t, k, b, c, limit);
    assert AfterAnnounce(Ds(t, k), k, b).builders == d.builders - {b};
    assert AfterAnnounce(Ds(t, k), k, b) == Rebuilt(d, k, b);
    LeadsOn(s, t, WithDs(s, k, Rebuilt(d, k, b)), c, limit);
  }

  /** A miner that finds its dataset ready for the current job gets to the lock... */
  lemma CheckLeads(s: State, m: nat, k: Kind, limit: Limit)
    requires m < |s.miners| && s.miners[m].pc == MStart && s.jobs != []
    requires var j := s.jobs[|s.jobs| - 1];
      Uses(j, s.miners[m].kind) && Ds(s, s.miners[m].kind).ready == DatasetId(j, s.miners[m].kind)
    ensures Leads(s, MoveTo(s, m, MLock(|s.jobs| - 1)), k, limit)
  {
    var j := |s.jobs| - 1;
    var s1, s2, s3 := MoveTo(s, m, MCopied(j)), MoveTo(s, m, MCheck(j)), MoveTo(s, m, MLock(j));
    LeadsByOne(s, Mine(m), s1, k, limit);
    assert MineApply(s1, m) == s2 && MineApply(s2, m) == s3;
    LeadsNext(s, s1, Mine(m), s2, k, limit);
    LeadsNext(s, s2, Mine(m), s3, k, limit);
  }

  /** ... and from the lock, with its job still current, to a hash. */
  function Hashing(s: State, m: nat): State
    requires m < |s.miners| && s.miners[m].pc.MLock?
  {
    var k, j := s.miners[m].kind, s.miners[m].pc.j;
    MoveTo(WithDs(s, k, Ds(s, k).(readers := Ds(s, k).readers + {m})), m, MHash(j, s.nonce, k !in s.touched))
    .(nonce := W32(s.nonce + NONCE_CHUNK), draws := s.draws + [Draw(m, s.nonce)])
  }

  lemma HashLeads(s: State, m: nat, k: Kind, limit: Limit)
    requires m < |s.miners| && s.miners[m].pc.MLock? && s.miners[m].pc.j == Current(s)
    requires Ds(s, s.miners[m].kind).writer == None
    ensures Leads(s, Hashing(s, m), k, limit)
  {
    var d, j, kind := Ds(s, s.miners[m].kind), s.miners[m].pc.j, s.miners[m].kind;
    var locked := WithDs(s, kind, d.(readers := d.readers + {m}));
    var s1 := MoveTo(locked, m, MGuard(j, 0));
    LeadsByOne(s, Mine(m), s1, k, limit);
    var s2 := MoveTo(locked, m, MDraw(j, 0, kind !in s.touched));
    assert s2.miners == s1.miners[m := Miner(kind, MDraw(j, 0, kind !in s.touched))];
    LeadsNext(s, s1, Mine(m), s2, k, limit);
    assert Hashing(s, m).miners == s2.miners[m := Miner(kind, MHash(j, s.nonce, kind !in s.touched))];
    LeadsNext(s, s2, Mine(m), Hashing(s, m), k, limit);
  }

  // ------------------------------------------------------------------ continuing a run

  /** A job whose dataset has to be rebuilt: published, with a new builder pending. */
  lemma ThenPublish(o: State, s: State, job: Job, k: Kind, limit: Limit) returns (t: State)
    requires Leads(o, s, k, limit) && s.exec == EReady && job.pow != Idle
    requires Ds(s, k).loaded != DatasetId(job, k)
    requires limit != NothingNew && (limit == NoOverlap ==> Ds(s, k).builders == map[])
    ensures Leads(o, t, k, limit)
    ensures t.exec == EReady && t.touched == {} && t.miners == s.miners && t.jobs == s.jobs + [job]
    ensures Ds(t, k) == Reseeded(Ds(s, k), k, job)
  {
    t := Published(s, job);
    NewJobLeads(s, job, k, limit);
    LeadsOn(o, s, t, k, limit);
  }

  function Reseeded(d: Dataset, k: Kind, job: Job): Dataset {
    Spawning(d.(loaded := DatasetId(job, k), ready := INVALID_ID,
                seed := if k == Rx then job.seed else d.seed), job)
  }

  lemma ThenRebuild(o: State, s: State, k: Kind, b: nat, limit: Limit) returns (t: State)
    requires Leads(o, s, k, limit)
    requires b in Ds(s, k).builders && Ds(s, k).builders[b].pc == Spawned
    requires Ds(s, k).writer == None && Ds(s, k).readers == {}
    ensures Leads(o, t, k, limit)
    ensures t == WithDs(s, k, Rebuilt(Ds(s, k), k, b))
  {
    t := WithDs(s, k, Rebuilt(Ds(s, k), k, b));
    RebuildLeads(s, k, b, k, limit);
    LeadsOn(o, s, t, k, limit);
  }

  lemma ThenCheck(o: State, s: State, m: nat, k: Kind, limit: Limit) returns (t: State)
    requires Leads(o, s, k, limit)
    requires m < |s.miners| && s.miners[m] == Miner(k, MStart) && s.jobs != []
    requires Uses(s.jobs[|s.jobs| - 1], k) && Ds(s, k).ready == DatasetId(s.jobs[|s.jobs| - 1], k)
    ensures Leads(o, t, k, limit)
    ensures t == MoveTo(s, m, MLock(|s.jobs| - 1))
  {
    t := MoveTo(s, m, MLock(|s.jobs| - 1));
    CheckLeads(s, m, k, limit);
    LeadsOn(o, s, t, k, limit);
  }

  /** Miner m hashes the current job on contents that are not the job's, behind a guard that passed
      outside (clean) or inside the executor's window. */
  predicate WrongHash(s: State, k: Kind, m: nat, clean: bool) {
    && m < |s.miners| && s.miners[m].kind == k
    && s.miners[m].pc.MHash? && s.miners[m].pc.clean == clean
    && s.jobs != [] && s.miners[m].pc.j == Current(s)
    && Uses(s.jobs[Current(s)], k) && !RightContents(s, k, Current(s))
  }

  lemma ThenHash(o: State, s: State, m: nat, k: Kind, limit: Limit) returns (t: State)
    requires Leads(o, s, k, limit)
    requires m < |s.miners| && s.jobs != [] && s.miners[m] == Miner(k, MLock(|s.jobs| - 1))
    requires Ds(s, k).writer == None
    requires Uses(s.jobs[|s.jobs| - 1], k) && !RightContents(s, k, |s.jobs| - 1)
    ensures Leads(o, t, k, limit) && WrongHash(t, k, m, k !in s.touched)
  {
    t := Hashing(s, m);
    HashLeads(s, m, k, limit);
    LeadsOn(o, s, t, k, limit);
    assert Ds(t, k).contents == Ds(s, k).contents;
  }

  lemma LeadsNowhere(s: State, k: Kind, limit: Limit)
    ensures Leads(s, s, k, limit)
  {
    var r := Run([s], []);
    assert Connects(r, s, s, k, limit);
  }
}
