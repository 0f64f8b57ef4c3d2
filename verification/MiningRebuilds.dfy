/** What becomes of rebuilds, however they overlap: which announcements are right, when `ready_id` is
    coherent with the contents, and which rebuilds are lost. */
module MiningRebuilds {
  import opened Words
  import opened Vector32
  import opened MiningProtocol
  import opened MiningSafety

  lemma {:induction false} RunKeepsExec(r: Run, k: Kind, i: nat)
    requires IsRun(r) && i < |r.states|
    ensures ExecInv(r.states[i], k) && LockInv(r.states[i], k) && JobsInv(r.states[i])
  {
    RunKeepsLock(r, k, i);
    if i > 0 {
      RunKeepsExec(r, k, i - 1);
      assert Enabled(r.states[i - 1], r.labels[i - 1]);
      StepKeepsExecInv(r.states[i - 1], r.labels[i - 1], k);
    }
  }

  // ------------------------------------------------------------------ RandomX, in every run

  /** This builder will leave the contents `loaded_id` names, if the seed does not change again. */
  predicate Repairs(d: Dataset, b: nat)
    requires b in d.builders
  {
    var pc := d.builders[b].pc;
    pc == Spawned || pc == Locked || ((pc.Filling? || pc.Filled?) && KeyId(pc.source) == d.loaded)
  }

  predicate Repaired(d: Dataset) {
    && d.ready == d.loaded && Resting(d)
    && d.contents.Built? && KeyId(d.contents.key) == d.loaded
  }

  ghost predicate SeedInv(d: Dataset, phase: Phase) {
    && (forall b :: b in d.builders && d.builders[b].pc.Filled? ==> d.contents == Built(d.builders[b].pc.source))
    && (d.loaded == INVALID_ID ==> d.builders == map[])
    && (phase == Outside && d.loaded != INVALID_ID ==>
          GetId(d.seed) == d.loaded && (Repaired(d) || exists b :: b in d.builders && Repairs(d, b)))
  }

  lemma BuildKeepsSeedInv(d: Dataset, phase: Phase, b: nat)
    requires SeedInv(d, phase) && WriterInv(d) && b in d.builders
    requires d.builders[b].pc == Spawned ==> d.writer == None
    ensures SeedInv(BuildApply(d, Rx, b), phase)
  {
    var e := BuildApply(d, Rx, b);
    assert forall c :: c in d.builders && c != b ==> c in e.builders && e.builders[c] == d.builders[c];
    assert forall c :: c in e.builders && c != b ==> c in d.builders && d.builders[c].pc == Spawned;
    if phase == Outside && !Repaired(d) {
      var a :| a in d.builders && Repairs(d, a);
      if a != b {
        assert Repairs(e, a);
      } else if !d.builders[b].pc.Filled? {
        assert Repairs(e, b);
      } else if c :| c in e.builders && c != b {
        assert Repairs(e, c);
      }
    }
  }

  lemma ExecKeepsSeedInv(s: State)
    requires SeedInv(s.rx, PhaseOf(s.exec, Rx)) && ExecInv(s, Rx) && LockInv(s, Rx) && s.exec != EReady
    ensures SeedInv(ExecApply(s).rx, PhaseOf(ExecApply(s).exec, Rx))
  {
    ExecEffect(s, Rx);
    var d, e := s.rx, ExecApply(s).rx;
    if s.exec.ELoad? && s.exec.k == Rx {
      IdIsNeverInvalid(s.exec.job.seed);
    } else if s.exec.ESpawn? && s.exec.k == Rx {
      IdIsNeverInvalid(s.exec.job.seed);
      assert Repairs(e, d.spawned);
    }
  }

  lemma {:induction false} RunKeepsSeedInv(r: Run, i: nat)
    requires IsRun(r) && i < |r.states|
    ensures SeedInv(r.states[i].rx, PhaseOf(r.states[i].exec, Rx))
  {
    if i > 0 {
      RunKeepsSeedInv(r, i - 1);
      RunKeepsExec(r, Rx, i - 1);
      var s, l := r.states[i - 1], r.labels[i - 1];
      assert Enabled(s, l) && r.states[i] == Apply(s, l);
      match l {
        case ExecStep => ExecKeepsSeedInv(s);
        case Mine(m) =>
          MineFrame(s, m, Rx);
          ReadersKeepSeedInv(s.rx, PhaseOf(s.exec, Rx), r.states[i].rx.readers);
        case Build(k, b) => if k == Rx { BuildKeepsSeedInv(s.rx, PhaseOf(s.exec, Rx), b); }
        case _ =>
      }
    }
  }

  lemma ReadersKeepSeedInv(d: Dataset, phase: Phase, readers: set<nat>)
    requires SeedInv(d, phase)
    ensures SeedInv(d.(readers := readers), phase)
  {
    if phase == Outside && d.loaded != INVALID_ID && !Repaired(d) {
      var b :| b in d.builders && Repairs(d, b);
      assert Repairs(d.(readers := readers), b);
    }
  }

  /** In every run, a RandomX builder announces what it built if and only if the seed field still has
      the id it had when the builder read it. */
  lemma RandomXAnnouncesTheLastSeed(r: Run, i: nat, b: nat)
    requires IsRun(r) && i < |r.labels| && r.labels[i] == Build(Rx, b)
    requires b in r.states[i].rx.builders && r.states[i].rx.builders[b].pc.Filled?
    ensures var s, t := r.states[i], r.states[i + 1];
      t.rx.contents.Built? && (t.rx.ready == KeyId(t.rx.contents.key)
                               <==> GetId(s.rx.seed) == KeyId(s.rx.builders[b].pc.source))
  {
    RunKeepsSeedInv(r, i);
    assert Enabled(r.states[i], r.labels[i]) && r.states[i + 1] == Apply(r.states[i], r.labels[i]);
  }

  // ------------------------------------------------------------------ ProgPow, in every run

  /** The epoch of the ProgPow builder that was the last to get the lock. */
  function LastToLock(r: Run, i: nat): Option<nat>
    requires i <= |r.labels| < |r.states|
  {
    if i == 0 then None else TakesLock(r.states[i - 1], r.labels[i - 1], LastToLock(r, i - 1))
  }

  function TakesLock(s: State, l: Label, last: Option<nat>): Option<nat> {
    if l.Build? && l.k == Pp && l.b in s.pp.builders && s.pp.builders[l.b].pc == Spawned
    then Some(s.pp.builders[l.b].epoch) else last
  }

  predicate EpochInv(d: Dataset, phase: Phase, last: Option<nat>) {
    && Coherent(d)
    && (forall b :: b in d.builders && d.builders[b].pc != Spawned ==> HolderInv(d, b, last))
    && (phase == Outside && Resting(d) ==>
          if last.None? then d.loaded == INVALID_ID
          else d.ready == last.value && d.contents.Built? && KeyId(d.contents.key) == last.value)
  }

  predicate HolderInv(d: Dataset, b: nat, last: Option<nat>)
    requires b in d.builders
  {
    var t := d.builders[b];
    && last == Some(t.epoch)
    && (t.pc.Filling? || t.pc.Filled? ==> t.pc.source == EpochKey(t.epoch))
    && (t.pc.Filled? || t.pc.Announced? ==> d.contents == Built(EpochKey(t.epoch)))
    && (t.pc.Announced? ==> d.ready == INVALID_ID || d.ready == t.epoch)
  }

  lemma BuildKeepsEpochInv(s: State, b: nat, last: Option<nat>)
    requires EpochInv(s.pp, PhaseOf(s.exec, Pp), last) && WriterInv(s.pp) && Enabled(s, Build(Pp, b))
    ensures EpochInv(BuildApply(s.pp, Pp, b), PhaseOf(s.exec, Pp), TakesLock(s, Build(Pp, b), last))
  {
    var d, e := s.pp, BuildApply(s.pp, Pp, b);
    assert forall c :: c in e.builders && c != b ==> c in d.builders && d.builders[c].pc == Spawned;
    assert forall c :: c in d.builders && c != b ==> c in e.builders && e.builders[c] == d.builders[c];
    assert d.builders[b].pc != Spawned ==> HolderInv(d, b, last);
    assert Resting(e) && d.builders[b].pc.Announced? ==> Resting(d);
    assert Resting(e) && b in e.builders ==> e.builders[b].pc == Announced;
  }

  lemma ExecKeepsEpochInv(s: State, last: Option<nat>)
    requires EpochInv(s.pp, PhaseOf(s.exec, Pp), last)
    requires ExecInv(s, Pp) && LockInv(s, Pp) && s.exec != EReady
    ensures EpochInv(ExecApply(s).pp, PhaseOf(ExecApply(s).exec, Pp), last)
  {
    ExecEffect(s, Pp);
    var d, e := s.pp, ExecApply(s).pp;
    forall b | b in e.builders && e.builders[b].pc != Spawned
      ensures HolderInv(e, b, last)
    {
      assert HolderInv(d, b, last);
    }
    if s.exec.ESpawn? && s.exec.k == Pp {
      assert e.builders[d.spawned].pc == Spawned;
    }
  }

  lemma ReadersKeepEpochInv(d: Dataset, phase: Phase, last: Option<nat>, readers: set<nat>)
    requires EpochInv(d, phase, last)
    ensures EpochInv(d.(readers := readers), phase, last)
  {
    var e := d.(readers := readers);
    assert forall b :: b in e.builders && e.builders[b].pc != Spawned ==> HolderInv(d, b, last);
  }

  lemma {:induction false} RunKeepsEpochInv(r: Run, i: nat)
    requires IsRun(r) && i < |r.states|
    ensures EpochInv(r.states[i].pp, PhaseOf(r.states[i].exec, Pp), LastToLock(r, i))
  {
    if i > 0 {
      RunKeepsEpochInv(r, i - 1);
      RunKeepsExec(r, Pp, i - 1);
      var s, l, last := r.states[i - 1], r.labels[i - 1], LastToLock(r, i - 1);
      assert Enabled(s, l) && r.states[i] == Apply(s, l);
      match l {
        case ExecStep => ExecKeepsEpochInv(s, last);
        case Mine(m) =>
          MineFrame(s, m, Pp);
          ReadersKeepEpochInv(s.pp, PhaseOf(s.exec, Pp), last, r.states[i].pp.readers);
        case Build(k, b) => if k == Pp { BuildKeepsEpochInv(s, b, last); }
        case _ =>
      }
    }
  }

  /** The ProgPow builder carries its epoch by value, so its dataset stays coherent in every run:
      any number of overlapping rebuilds, taking the lock in any order. */
  lemma ProgPowIsAlwaysCoherent(r: Run, i: nat)
    requires IsRun(r) && i < |r.states|
    ensures Coherent(r.states[i].pp)
    ensures forall b :: b in r.states[i].pp.builders && r.states[i].pp.builders[b].pc.Announced? ==>
      r.states[i].pp.contents == Built(EpochKey(r.states[i].pp.builders[b].epoch))
  {
    RunKeepsEpochInv(r, i);
    var d := r.states[i].pp;
    assert forall b :: b in d.builders && d.builders[b].pc.Announced? ==> HolderInv(d, b, LastToLock(r, i));
  }

  // ------------------------------------------------------------------ lost rebuilds

  /** Nothing is left to rebuild, the executor has adjusted dataset k, and the current job uses it. */
  predicate Quiescent(s: State, k: Kind) {
    Resting(Ds(s, k)) && k !in s.touched && InUse(s, k)
  }

  /** A miner of the current job finds its check passing and the right contents behind it. */
  predicate Served(s: State, k: Kind)
    requires InUse(s, k)
  {
    Ds(s, k).ready == CurrentId(s, k) && RightContents(s, k, Current(s))
  }

  /** RandomX rebuilds are never lost, however many overlap and whoever gets the lock first: every
      builder reads the newest seed. ProgPow rebuilds are not lost in calm runs. */
  lemma NoRebuildIsLost(r: Run, k: Kind, i: nat)
    requires IsRun(r) && (k == Pp ==> Calm(r, k)) && i < |r.states| && Quiescent(r.states[i], k)
    ensures Served(r.states[i], k)
  {
    var s := r.states[i];
    KeyIdsAreValid(KeyOf(s.jobs[Current(s)], k));
    if k == Rx {
      RunKeepsExec(r, k, i);
      RunKeepsSeedInv(r, i);
    } else {
      RunIsCalm(r, k, i);
    }
  }

  /** In every run, once the ProgPow builders are done, dataset and `ready_id` are those of the last
      builder to get the lock. So the current job is served exactly if that builder was for it. */
  lemma ProgPowRebuildIsLostExactly(r: Run, i: nat)
    requires IsRun(r) && i < |r.states| && Quiescent(r.states[i], Pp)
    ensures var s, last := r.states[i], LastToLock(r, i);
      && last.Some? && s.pp.ready == last.value
      && (Served(s, Pp) <==> last.value == s.jobs[Current(s)].epoch)
  {
    RunKeepsExec(r, Pp, i);
    RunKeepsEpochInv(r, i);
  }

  // ------------------------------------------------------------------ coherence of ready_id

  lemma CoherentWhenCalm(r: Run, k: Kind, i: nat)
    requires IsRun(r) && Calm(r, k) && i < |r.states|
    ensures Coherent(Ds(r.states[i], k))
  {
    RunIsCalm(r, k, i);
  }

  /** The step does not change the id of the seed between a builder's two looks at it. */
  predicate SteadyStep(s: State, l: Label) {
    l.ExecStep? && s.exec.ESeed? ==>
      forall b :: b in s.rx.builders && (s.rx.builders[b].pc.Filling? || s.rx.builders[b].pc.Filled?) ==>
        GetId(s.exec.job.seed) == KeyId(s.rx.builders[b].pc.source)
  }

  predicate Steady(r: Run)
    requires Steps(r)
  {
    forall i {:trigger r.labels[i]} :: 0 <= i < |r.labels| ==> SteadyStep(r.states[i], r.labels[i])
  }

  predicate SteadyInv(d: Dataset) {
    && Coherent(d)
    && forall b :: b in d.builders ==>
         && (d.builders[b].pc.Filling? || d.builders[b].pc.Filled? ==>
               KeyId(d.builders[b].pc.source) == GetId(d.seed))
         && (d.builders[b].pc.Filled? ==> d.contents == Built(d.builders[b].pc.source))
         && (d.builders[b].pc.Announced? ==>
               d.contents.Built? && (d.ready == INVALID_ID || d.ready == KeyId(d.contents.key)))
  }

  lemma StepKeepsSteadyInv(s: State, l: Label)
    requires SteadyInv(s.rx) && ExecInv(s, Rx) && LockInv(s, Rx) && Enabled(s, l) && SteadyStep(s, l)
    ensures SteadyInv(Apply(s, l).rx)
  {
    match l {
      case ExecStep => ExecEffect(s, Rx);
      case Mine(m) => MineFrame(s, m, Rx);
      case Build(k, b) =>
        if k == Rx { BuildKeepsSteadyInv(s.rx, b); }
      case _ =>
    }
  }

  lemma BuildKeepsSteadyInv(d: Dataset, b: nat)
    requires SteadyInv(d) && WriterInv(d) && b in d.builders
    requires d.builders[b].pc == Spawned ==> d.writer == None
    ensures SteadyInv(BuildApply(d, Rx, b))
  {
    var e := BuildApply(d, Rx, b);
    assert forall c :: c in e.builders && c != b ==> c in d.builders && d.builders[c].pc == Spawned;
  }

  /** The RandomX dataset is coherent, through any overlap, while no seed of another id is stored
      between a builder's two looks at the seed. */
  lemma {:induction false} RandomXIsCoherentWhileSteady(r: Run, i: nat)
    requires IsRun(r) && Steady(r) && i < |r.states|
    ensures SteadyInv(r.states[i].rx) && Coherent(r.states[i].rx)
  {
    if i > 0 {
      RandomXIsCoherentWhileSteady(r, i - 1);
      RunKeepsExec(r, Rx, i - 1);
      var s, l := r.states[i - 1], r.labels[i - 1];
      assert Enabled(s, l) && r.states[i] == Apply(s, l) && SteadyStep(s, l);
      StepKeepsSteadyInv(s, l);
    }
  }
}
