/** A miner's result queue: the mining thread pushes under a mutex and signals a coalescing async
    handle; the event loop's callback drains the queue and unlocks between items. */
module ResultQueue {
  import opened Words
  import opened Vector32

  datatype MinerResult = MinerResult(jobId: string, nonce: uint32, hash: V32, minerId: uint32)

  datatype Side = Miner | Loop

  /** The mining thread around rx_miner.cpp:29-32: PHolding and PPushed are inside the mutex. */
  datatype Producer =
    | PWorking
    | PLocking(res: MinerResult)
    | PHolding(res: MinerResult)
    | PPushed
    | PSignalling

  /** The callback of miner.cpp:8-19: CTesting, CTaken and CLeaving are inside the mutex. */
  datatype Consumer =
    | CWaiting
    | CLocking
    | CTesting
    | CTaken(res: MinerResult)
    | CDelivering(res: MinerResult)
    | CLeaving

  /** `produced` and `delivered` are history: all results pushed, all handed to the executor. */
  datatype State = State(
    queue: seq<MinerResult>, mutex: Option<Side>, pending: bool,
    producer: Producer, consumer: Consumer,
    produced: seq<MinerResult>, delivered: seq<MinerResult>)

  datatype Label = Found(res: MinerResult) | Produce | Wake | Consume

  predicate Init(s: State) {
    && s.queue == [] && s.mutex == None && !s.pending
    && s.producer == PWorking && s.consumer == CWaiting
    && s.produced == [] && s.delivered == []
  }

  predicate Enabled(s: State, l: Label) {
    match l
    case Found(_) => s.producer == PWorking
    case Produce => s.producer != PWorking && (s.producer.PLocking? ==> s.mutex == None)
    case Wake => s.pending && s.consumer == CWaiting
    case Consume => s.consumer != CWaiting && (s.consumer == CLocking ==> s.mutex == None)
  }

  function Apply(s: State, l: Label): State
    requires Enabled(s, l)
  {
    match l
    case Found(res) => s.(producer := PLocking(res))
    case Produce => ProducerStep(s)
    // the loop clears the flag before it runs the callback; sends meanwhile set it again
    case Wake => s.(pending := false, consumer := CLocking)
    case Consume => ConsumerStep(s)
  }

  function ProducerStep(s: State): State {
    match s.producer
    case PWorking => s
    case PLocking(res) => s.(mutex := Some(Miner), producer := PHolding(res))
    case PHolding(res) =>
      s.(queue := s.queue + [res], produced := s.produced + [res], producer := PPushed)
    case PPushed => s.(mutex := None, producer := PSignalling)
    case PSignalling => s.(pending := true, producer := PWorking)
  }

  function ConsumerStep(s: State): State {
    match s.consumer
    case CWaiting => s
    case CLocking => s.(mutex := Some(Loop), consumer := CTesting)
    case CTesting =>
      if s.queue == [] then s.(consumer := CLeaving)
      else s.(queue := s.queue[1..], consumer := CTaken(s.queue[0]))
    case CTaken(res) => s.(mutex := None, consumer := CDelivering(res))
    case CDelivering(res) => s.(delivered := s.delivered + [res], consumer := CLocking)
    case CLeaving => s.(mutex := None, consumer := CWaiting)
  }

  // ------------------------------------------------------------------ invariant

  /** Popped, not yet handed over. */
  function InFlight(s: State): seq<MinerResult> {
    if s.consumer.CTaken? || s.consumer.CDelivering? then [s.consumer.res] else []
  }

  predicate MutexInv(s: State) {
    && (s.mutex == Some(Miner) <==> s.producer.PHolding? || s.producer == PPushed)
    && (s.mutex == Some(Loop) <==>
          s.consumer == CTesting || s.consumer.CTaken? || s.consumer == CLeaving)
  }

  /** Delivered, then in flight, then queued: what was produced, in order. */
  predicate NothingLost(s: State) {
    s.produced == s.delivered + InFlight(s) + s.queue
  }

  /** Results waiting in the queue have someone to fetch them: a wakeup is pending, a drain will
      test the queue again, or the producer is on its way to signal. */
  predicate NoLostWakeup(s: State) {
    s.queue != [] ==>
      || s.pending
      || (s.consumer != CWaiting && s.consumer != CLeaving)
      || s.producer == PPushed || s.producer == PSignalling
  }

  predicate Inv(s: State) {
    MutexInv(s) && NothingLost(s) && NoLostWakeup(s) && (s.consumer == CLeaving ==> s.queue == [])
  }

  lemma StepKeepsInv(s: State, l: Label)
    requires Inv(s) && Enabled(s, l)
    ensures Inv(Apply(s, l))
  {
    var t := Apply(s, l);
    if l == Consume && s.consumer == CTesting && s.queue != [] {
      assert s.queue == [s.queue[0]] + t.queue;
    }
  }

  predicate IsRun(states: seq<State>, labels: seq<Label>) {
    && |states| == |labels| + 1 && Init(states[0])
    && forall i {:trigger labels[i]} :: 0 <= i < |labels| ==>
         Enabled(states[i], labels[i]) && states[i + 1] == Apply(states[i], labels[i])
  }

  // ------------------------------------------------------------------ progress

  /** The event loop has nothing left to do. */
  predicate Quiet(s: State) { s.consumer == CWaiting && !s.pending }

  /** Found, not yet in the queue. */
  function Pushing(s: State): seq<MinerResult> {
    if s.producer.PLocking? || s.producer.PHolding? then [s.producer.res] else []
  }

  /** A measure of the work at hand: no step but a new find leaves it as it was. */
  function Rank(s: State): nat {
    4 * |s.queue| + (if s.pending then 4 else 0) + ProducerRank(s.producer) + ConsumerRank(s.consumer)
  }

  function ProducerRank(p: Producer): nat {
    match p
    case PWorking => 0
    case PSignalling => 5
    case PPushed => 6
    case PHolding(_) => 11
    case PLocking(_) => 12
  }

  function ConsumerRank(c: Consumer): nat {
    match c
    case CWaiting => 0
    case CLeaving => 1
    case CTesting => 2
    case CLocking => 3
    case CDelivering(_) => 4
    case CTaken(_) => 5
  }

  /** Every step of either thread, short of finding a new share, gets the work at hand forward and
      keeps what has been found. */
  lemma StepsProgress(s: State, l: Label)
    requires Enabled(s, l) && !l.Found?
    ensures var t := Apply(s, l);
      Rank(t) < Rank(s) && t.produced + Pushing(t) == s.produced + Pushing(s)
  {
    var t := Apply(s, l);
    if l == Consume && s.consumer == CTesting && s.queue != [] {
      assert s.queue == [s.queue[0]] + t.queue;
    }
  }

  /** No thread can go on but by finding a share. */
  predicate Idle(s: State) {
    !Enabled(s, Produce) && !Enabled(s, Wake) && !Enabled(s, Consume)
  }

  /** The threads never block each other for good: when neither can go on, all work is done. */
  lemma IdleIsDone(s: State)
    requires Inv(s)
    ensures Idle(s) <==> s.producer == PWorking && Quiet(s)
    ensures Idle(s) ==> s.queue == [] && s.delivered == s.produced
  {
    assert s.mutex.Some? ==> s.mutex.value == Miner || s.mutex.value == Loop;
  }

  /** Steps of both threads in any order, none of them a new find. */
  predicate IsSchedule(states: seq<State>, labels: seq<Label>) {
    && |states| == |labels| + 1
    && forall i {:trigger labels[i]} :: 0 <= i < |labels| ==>
         !labels[i].Found? && Enabled(states[i], labels[i]) && states[i + 1] == Apply(states[i], labels[i])
  }

  lemma {:induction false} SchedulesProgress(states: seq<State>, labels: seq<Label>, i: nat)
    requires IsSchedule(states, labels) && Inv(states[0]) && i < |states|
    ensures Inv(states[i]) && i + Rank(states[i]) <= Rank(states[0])
    ensures states[i].produced + Pushing(states[i]) == states[0].produced + Pushing(states[0])
  {
    if i > 0 {
      SchedulesProgress(states, labels, i - 1);
      assert !labels[i - 1].Found?;
      StepKeepsInv(states[i - 1], labels[i - 1]);
      StepsProgress(states[i - 1], labels[i - 1]);
    }
  }

  /** Delivery under every schedule: from any reachable state, wherever both threads are, a bounded
      number of steps in any order leads to the executor having every share found so far, in order,
      with the queue empty and both threads waiting. Only there does a schedule end. */
  lemma EveryScheduleDelivers(states: seq<State>, labels: seq<Label>)
    requires IsSchedule(states, labels) && Inv(states[0])
    ensures |labels| <= Rank(states[0])
    ensures var s, t := states[0], states[|labels|];
      Idle(t) <==> t.producer == PWorking && Quiet(t) && t.queue == []
                   && t.delivered == t.produced == s.produced + Pushing(s)
  {
    SchedulesProgress(states, labels, |labels|);
    IdleIsDone(states[|labels|]);
  }

  /** The shares found in the first i steps. */
  function FoundIn(labels: seq<Label>, i: nat): seq<MinerResult>
    requires i <= |labels|
  {
    if i == 0 then []
    else FoundIn(labels, i - 1) + if labels[i - 1].Found? then [labels[i - 1].res] else []
  }

  /** In every state of every run no wakeup is lost, and the shares found are, in order: delivered, in
      flight, queued, being pushed. */
  lemma {:induction false} EveryRunKeepsResults(states: seq<State>, labels: seq<Label>, i: nat)
    requires IsRun(states, labels) && i < |states|
    ensures Inv(states[i]) && states[i].delivered <= states[i].produced
    ensures var s := states[i];
      s.delivered + InFlight(s) + s.queue + Pushing(s) == FoundIn(labels, i)
  {
    if i > 0 {
      EveryRunKeepsResults(states, labels, i - 1);
      StepKeepsInv(states[i - 1], labels[i - 1]);
      if !labels[i - 1].Found? { StepsProgress(states[i - 1], labels[i - 1]); }
    }
  }

  /** The event loop running on its own until it is quiet, the producer being at work elsewhere. */
  function Settle(s: State): State
    requires Inv(s) && s.producer == PWorking
    decreases Rank(s)
  {
    if Quiet(s) then s
    else
      var l := LoopLabel(s);
      StepKeepsInv(s, l);
      Settle(Apply(s, l))
  }

  /** A loop that is not quiet can always go on: nobody else holds the mutex. */
  function LoopLabel(s: State): (l: Label)
    requires Inv(s) && s.producer == PWorking && !Quiet(s)
    ensures Enabled(s, l) && Rank(Apply(s, l)) < Rank(s) && Apply(s, l).producer == PWorking
  {
    IdleIsDone(s);
    var l := if s.consumer == CWaiting then Wake else Consume;
    StepsProgress(s, l);
    l
  }

  /** Whenever the producer is not inside its push-and-signal, the loop alone gets every produced
      result delivered, in order, and stops with an empty queue. */
  lemma {:induction false} TheLoopDeliversEverything(s: State)
    requires Inv(s) && s.producer == PWorking
    ensures var t := Settle(s);
      Quiet(t) && t.queue == [] && t.produced == s.produced && t.delivered == s.produced
    decreases Rank(s)
  {
    if !Quiet(s) {
      var l := LoopLabel(s);
      StepKeepsInv(s, l);
      TheLoopDeliversEverything(Apply(s, l));
    }
  }
}
