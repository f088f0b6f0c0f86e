/** The pool stops cleanly: once the queue is closed, every schedule of the workers comes to
    the point where all of them have left, and each item ever accepted was answered once. */
module Stopping {
  import opened Streams
  import opened Reactors
  import opened Servers
  import opened Invariants
  import opened Reachability
  import opened Theorems
  import opened Quiescence

  /** A step of the pool while it is stopped: the broadcast, or a step of a worker. */
  ghost predicate PoolStep(cfg: Config, s: State, l: Label) {
    (l.Work? || l.NotifyAll?) && Step(cfg, s, l) != s
  }

  ghost predicate AllExited(s: State) {
    forall w :: 0 <= w < |s.workers| ==> s.workers[w].Exited?
  }

  /** A bound on the steps of the pool: the broadcast may wake every worker once. */
  function StopWeight(s: State): nat {
    Weight(s) + if s.allOwed then |s.workers| + 1 else 0
  }

  lemma {:induction false} WakeAllWeight(workers: seq<Worker>)
    ensures |Concat(WorkerWeight(), WakeAll(workers))| <= |Concat(WorkerWeight(), workers)| + |workers|
  {
    if workers != [] {
      var n := |workers| - 1;
      WakeAllWeight(workers[..n]);
      assert WakeAll(workers)[..n] == WakeAll(workers[..n]);
    }
  }

  lemma PoolStepLightens(cfg: Config, s: State, l: Label)
    requires PoolStep(cfg, s, l)
    ensures var t := Step(cfg, s, l);
            && StopWeight(t) < StopWeight(s)
            && t.queueClosed == s.queueClosed && t.accepted == s.accepted && t.pc == s.pc
  {
    hide ReactorStep, WorkerStep, Weight;
    if l.Work? {
      WorkerLightens(cfg, s, l.worker);
      WorkerKeepsPool(cfg, s, l.worker);
    } else {
      BroadcastWeight(s);
    }
  }

  lemma WorkerKeepsPool(cfg: Config, s: State, w: nat)
    requires w < |s.workers|
    ensures var t := WorkerStep(cfg, s, w);
            && t.queueClosed == s.queueClosed && t.allOwed == s.allOwed && t.accepted == s.accepted
            && |t.workers| == |s.workers|
  {}

  lemma BroadcastWeight(s: State)
    ensures Weight(s.(workers := WakeAll(s.workers), allOwed := false)) <= Weight(s) + |s.workers|
  {
    hide Concat;
    WakeAllWeight(s.workers);
  }

  /** On a closed queue the pool has no step left exactly if all workers have left. */
  lemma PoolRests(cfg: Config, s: State)
    requires Inv(cfg, s) && s.queueClosed
    ensures (forall l :: !PoolStep(cfg, s, l)) <==> AllExited(s) && !s.allOwed
  {
    hide ConnectionsOk, ConservedOk, WakeupOk, QueueOk, DeliveryOk, ReactorStep;
    if forall l :: !PoolStep(cfg, s, l) {
      assert !PoolStep(cfg, s, NotifyAll);
      forall w | 0 <= w < |s.workers| ensures s.workers[w].Exited? {
        assert !PoolStep(cfg, s, Work(w));
        assert s.workers[w].Asleep? || s.workers[w].Exited? by {
          if !s.workers[w].Asleep? && !s.workers[w].Exited? {
            WorkerMoves(cfg, s, w);
          }
        }
      }
    }
  }

  /** Each of the steps `more` after `labels` is a step of the pool. */
  ghost predicate PoolSchedule(cfg: Config, labels: seq<Label>, more: seq<Label>) {
    forall i :: 0 <= i < |more| ==> PoolStep(cfg, Execute(cfg, labels + more[..i]), more[i])
  }

  lemma {:induction false} PoolScheduleLightens(cfg: Config, labels: seq<Label>, more: seq<Label>)
    requires PoolSchedule(cfg, labels, more)
    ensures var s, t := Execute(cfg, labels), Execute(cfg, labels + more);
            && |more| + StopWeight(t) <= StopWeight(s)
            && t.queueClosed == s.queueClosed && t.accepted == s.accepted && t.pc == s.pc
  {
    hide Step, StopWeight, PoolStep;
    if more == [] {
      assert labels + more == labels;
    } else {
      var n := |more| - 1;
      var init := labels + more[..n];
      assert forall i :: 0 <= i < n ==> more[..n][..i] == more[..i];
      PoolScheduleLightens(cfg, labels, more[..n]);
      PoolStepLightens(cfg, Execute(cfg, init), more[n]);
      Then(cfg, init, more[n]);
      assert init + [more[n]] == labels + more;
    }
  }

  /** Clean stop. Once the queue is closed, and however the workers are scheduled, their steps
      and the broadcast are at most as many as the weight of the state; none is left exactly if
      all workers have left and no broadcast is owed; and then the results published are those
      of the items accepted, each exactly once. This is what lets `join` return. */
  lemma {:induction false} EveryStopDelivers(cfg: Config, labels: seq<Label>, more: seq<Label>)
    requires cfg.Valid() && Execute(cfg, labels).queueClosed && PoolSchedule(cfg, labels, more)
    ensures |more| <= StopWeight(Execute(cfg, labels))
    ensures var s := Execute(cfg, labels + more);
            && ((forall l :: !PoolStep(cfg, s, l)) <==> AllExited(s) && !s.allOwed)
            && (AllExited(s) ==> multiset(s.published) == multiset(Results(cfg, Execute(cfg, labels).accepted)))
  {
    hide Inv, Execute, StopWeight, PoolStep, PoolSchedule;
    PoolScheduleLightens(cfg, labels, more);
    Reachable(cfg, labels + more);
    PoolRests(cfg, Execute(cfg, labels + more));
    PoolDeliversExactlyOnce(cfg, labels + more);
  }

  lemma {:induction false} WorkersLeave(cfg: Config, labels: seq<Label>) returns (more: seq<Label>)
    requires cfg.Valid() && Execute(cfg, labels).queueClosed
    ensures forall i :: 0 <= i < |more| ==> more[i].NotifyAll? || more[i].Work?
    ensures AllExited(Execute(cfg, labels + more))
    ensures Execute(cfg, labels + more).accepted == Execute(cfg, labels).accepted
    decreases StopWeight(Execute(cfg, labels))
  {
    hide Inv, Step, StopWeight;
    Reachable(cfg, labels);
    PoolRests(cfg, Execute(cfg, labels));
    if AllExited(Execute(cfg, labels)) {
      more := [];
      assert labels + more == labels;
    } else {
      var l :| PoolStep(cfg, Execute(cfg, labels), l);
      PoolStepLightens(cfg, Execute(cfg, labels), l);
      Then(cfg, labels, l);
      var rest := WorkersLeave(cfg, labels + [l]);
      more := [l] + rest;
      assert labels + more == (labels + [l]) + rest;
    }
  }

  /** Once the reactor has stopped or failed, `Stop` of the pool comes to its end: the queue is
      closed, all workers leave, and every item ever accepted has been answered once. */
  lemma {:induction false} StopComesToItsEnd(cfg: Config, labels: seq<Label>) returns (more: seq<Label>)
    requires cfg.Valid() && !Running(Execute(cfg, labels))
    ensures forall i :: 0 <= i < |more| ==> more[i].ClosePool? || more[i].NotifyAll? || more[i].Work?
    ensures var s := Execute(cfg, labels + more);
            && s.queueClosed && AllExited(s)
            && multiset(s.published) == multiset(Results(cfg, Execute(cfg, labels).accepted))
  {
    hide Execute;
    Then(cfg, labels, ClosePool);
    var rest := WorkersLeave(cfg, labels + [ClosePool]);
    more := [ClosePool] + rest;
    assert labels + more == (labels + [ClosePool]) + rest;
    PoolDeliversExactlyOnce(cfg, labels + more);
  }
}
