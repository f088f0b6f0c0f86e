/** The threads never get in each other's way for good. Whatever the scheduler does, their own
    steps come to an end, and where they end every request has been answered. */
module Quiescence {
  import opened Streams
  import opened Connections
  import opened Reactors
  import opened Servers
  import opened Invariants
  import opened Reachability
  import opened Theorems

  /** The reactor waits, nothing is signalled, nothing is queued, nobody works. */
  ghost predicate Quiet(s: State) {
    && s.pc.Polling? && s.counter == 0 && s.queue == []
    && (forall w :: 0 <= w < |s.workers| ==> s.workers[w].Asleep? || s.workers[w].Exited?)
  }

  ghost predicate Running(s: State) {
    !s.pc.Stopped? && !s.pc.Failed?
  }

  /** A step that a thread of the server takes by itself: no new connection, nothing read
      from or written to the network, no stop. */
  predicate Internal(l: Label) {
    || l.Submit? || l.NotifyOne? || l.Count? || (l.Finish? && l.sent == 0)
    || l.Wake? || l.DrainCounter? || l.Swap? || l.Process? || l.Work?
  }

  /** A step of a thread of the server that does something. Here it may write to the network;
      and the reactor is woken only by a counter that is positive. */
  ghost predicate Effective(cfg: Config, s: State, l: Label) {
    && (Internal(l) || l.Finish?)
    && (l.Wake? ==> s.counter > 0)
    && Step(cfg, s, l) != s
  }

  // --------------------------------------------------------- what is left to do

  function Units(n: nat): (u: seq<()>)
    ensures |u| == n
  {
    seq(n, _ => ())
  }

  function StepsLeft(w: Worker): nat {
    match w
    case Holding(_) => 11
    case Computed(_) => 10
    case Announcing => 8
    case Woken => 1
    case Ready => 1
    case _ => 0
  }

  function WorkerWeight(): Worker -> seq<()> {
    (w: Worker) => Units(StepsLeft(w))
  }

  function PcWeight(pc: Pc, counter: nat): nat {
    var signalled := if counter > 0 then 6 else 0;
    match pc
    case Draining => if counter > 0 then 5 else 4
    case Swapping => 3 + signalled
    case Processing(batch) => 1 + |batch| + signalled
    case Submitting(_, todo, phase, _, _) =>
      (if todo == [] || phase.Testing? then 1 + 20 * |todo|
       else 20 * (|todo| - 1) + if phase.Pushed? then 8 else 5) + signalled
    case _ => signalled
  }

  /** A bound on the steps that the threads can take by themselves. */
  function Weight(s: State): nat {
    PcWeight(s.pc, s.counter) + 12 * |s.queue| + |Concat(WorkerWeight(), s.workers)| + |s.stored|
  }

  // --------------------------------------------------------- every step lightens

  lemma WorkerLightens(cfg: Config, s: State, w: nat)
    requires w < |s.workers| && WorkerStep(cfg, s, w) != s
    ensures Weight(WorkerStep(cfg, s, w)) < Weight(s)
    ensures WorkerStep(cfg, s, w).pc == s.pc
  {
    hide Concat, WorkerStep, PcWeight;
    WorkerDelta(cfg, s, w);
    ConcatUpdate(WorkerWeight(), s.workers, w, WorkerStep(cfg, s, w).workers[w]);
  }

  /** What a worker's step takes off its own weight is more than what it adds elsewhere. */
  lemma WorkerDelta(cfg: Config, s: State, w: nat)
    requires w < |s.workers| && WorkerStep(cfg, s, w) != s
    ensures var t := WorkerStep(cfg, s, w);
            && t.pc == s.pc && |t.workers| == |s.workers| && t.workers == s.workers[w := t.workers[w]]
            && StepsLeft(t.workers[w]) + PcWeight(t.pc, t.counter) + 12 * |t.queue| + |t.stored|
               < StepsLeft(s.workers[w]) + PcWeight(s.pc, s.counter) + 12 * |s.queue| + |s.stored|
  {
    hide PcWeight;
    SignalWeight(s.pc, s.counter);
  }

  lemma SignalWeight(pc: Pc, counter: nat)
    ensures PcWeight(pc, Bumped(counter)) <= PcWeight(pc, counter) + 6
  {}

  lemma WakeOneWeight(workers: seq<Worker>, w: nat)
    ensures |Concat(WorkerWeight(), WakeOne(workers, w))| <= |Concat(WorkerWeight(), workers)| + 1
  {
    hide Concat;
    if w < |workers| && workers[w].Asleep? {
      ConcatUpdate(WorkerWeight(), workers, w, Woken);
    }
  }

  /** The reactor submitting. */
  lemma SubmittingLightens(cfg: Config, s: State, l: Label)
    requires Effective(cfg, s, l) && !l.Work? && s.pc.Submitting?
    requires !s.pc.phase.Testing? ==> s.pc.todo != []
    ensures Running(Step(cfg, s, l)) && Weight(Step(cfg, s, l)) < Weight(s)
  {
    hide Concat, Settle, Conclude, WriteOutcome, WakeOne;
    if l.NotifyOne? {
      WakeOneWeight(s.workers, l.woken);
    }
  }

  /** The reactor in a wake-up event, or entering one. */
  lemma WakeupLightens(cfg: Config, s: State, l: Label)
    requires Effective(cfg, s, l) && !l.Work? && Running(s) && !s.pc.Submitting?
    ensures Running(Step(cfg, s, l)) && Weight(Step(cfg, s, l)) < Weight(s)
  {
    hide Concat, ArriveStep, EventStep, SubmitStep, CountStep, FinishStep, ProcessStep, ShutdownStep;
    if s.pc.Processing? && s.pc.batch != [] {
      ProcessLightens(cfg, s);
    }
  }

  lemma ProcessLightens(cfg: Config, s: State)
    requires s.pc.Processing? && s.pc.batch != []
    ensures var t := ProcessStep(cfg, s);
            t.pc.Processing? && Weight(t) < Weight(s)
  {
    hide Concat, Complete;
  }

  /** Every step of the server's own threads lowers the weight. */
  lemma EveryStepLightens(cfg: Config, s: State, l: Label)
    requires Inv(cfg, s) && Running(s) && Effective(cfg, s, l)
    ensures Running(Step(cfg, s, l)) && Weight(Step(cfg, s, l)) < Weight(s)
  {
    hide ConnectionsOk, ConservedOk, WakeupOk, SleepOk, QueueOk, DeliveryOk, TableOk, LogsOk, ReactorStep,
         WorkerStep, Weight;
    KeysAgree(cfg, s);
    if l.Work? {
      WorkerLightens(cfg, s, l.worker);
    } else if s.pc.Submitting? {
      SubmittingLightens(cfg, s, l);
    } else {
      WakeupLightens(cfg, s, l);
    }
  }

  // -------------------------------------------------------- and none is left at rest

  /** Away from the poll, the reactor has a step of its own. */
  lemma ReactorMoves(cfg: Config, s: State) returns (l: Label)
    requires cfg.Valid() && Running(s) && !s.pc.Polling?
    requires s.pc.Submitting? ==>
               && s.pc.id in s.table.connections && s.pc.id in s.table.flows && s.pc.id in s.logs
               && (!s.pc.phase.Testing? ==> s.pc.todo != [])
    ensures Internal(l) && Effective(cfg, s, l)
  {
    hide Settle, Complete;
    match s.pc
    case Draining => l := DrainCounter;
    case Swapping => l := Swap;
    case Processing(batch) => l := Process;
    case Submitting(id, todo, phase, _, _) => l := SubmittingMoves(cfg, s);
  }

  lemma SubmittingMoves(cfg: Config, s: State) returns (l: Label)
    requires cfg.Valid() && s.pc.Submitting?
    requires s.pc.id in s.table.connections && s.pc.id in s.table.flows && s.pc.id in s.logs
    requires !s.pc.phase.Testing? ==> s.pc.todo != []
    ensures Internal(l) && Effective(cfg, s, l)
  {
    hide Settle;
    if s.pc.phase.Notified? {
      l := Count;
    } else if s.pc.phase.Pushed? {
      if w :| 0 <= w < |s.workers| && s.workers[w].Asleep? {
        l := NotifyOne(w);
      } else {
        l := NotifyOne(0);
      }
    } else if s.pc.todo != [] {
      l := Submit;
    } else {
      var c := s.table.connections[s.pc.id];
      l := Finish(0, if c.output == [] then WriteOk else WriteWouldBlock);
      assert c.output[..0] == [] && c.output[0..] == c.output && [] + c.output == c.output;
    }
    assert Step(cfg, s, l).pc != s.pc;
  }

  /** A worker that is neither asleep nor gone has a step. */
  lemma WorkerMoves(cfg: Config, s: State, w: nat)
    requires w < |s.workers| && !s.workers[w].Asleep? && !s.workers[w].Exited?
    ensures Effective(cfg, s, Work(w))
  {
    assert WorkerStep(cfg, s, w).workers[w] != s.workers[w];
  }

  /** If all workers are asleep or gone, the queue is empty: so the sleep protocol has it. */
  lemma SleepersMeanEmpty(cfg: Config, s: State)
    requires Inv(cfg, s) && cfg.Valid() && s.pc.Polling?
    requires forall w :: 0 <= w < |s.workers| ==> s.workers[w].Asleep? || s.workers[w].Exited?
    ensures s.queue == []
  {
    hide ConnectionsOk, ConservedOk, WakeupOk, DeliveryOk, WokenCount;
    if s.queue != [] {
      assert s.workers[0].Asleep?;
      var w := SomeWoken(s.workers);
    }
  }

  /** Whenever the server is not quiet, one of its threads has a step to take. */
  lemma SomeoneMoves(cfg: Config, s: State) returns (l: Label)
    requires Inv(cfg, s) && cfg.Valid() && Running(s) && !Quiet(s)
    ensures Internal(l) && Effective(cfg, s, l)
  {
    hide ConnectionsOk, ConservedOk, WakeupOk, SleepOk, QueueOk, DeliveryOk, TableOk, LogsOk, Effective;
    KeysAgree(cfg, s);
    if !s.pc.Polling? {
      l := ReactorMoves(cfg, s);
    } else if w :| 0 <= w < |s.workers| && !s.workers[w].Asleep? && !s.workers[w].Exited? {
      l := Work(w);
      WorkerMoves(cfg, s, w);
    } else {
      SleepersMeanEmpty(cfg, s);
      l := Wake;
      WakeMoves(cfg, s);
    }
  }

  lemma WakeMoves(cfg: Config, s: State)
    requires s.pc.Polling? && s.counter > 0
    ensures Effective(cfg, s, Wake)
  {}

  lemma QuietRests(cfg: Config, s: State, l: Label)
    requires Quiet(s)
    ensures !Effective(cfg, s, l)
  {
    hide ArriveStep, EventStep, ShutdownStep;
  }

  /** A running server is quiet exactly if none of its threads has a step to take. */
  lemma {:induction false} QuietIffAtRest(cfg: Config, labels: seq<Label>)
    requires cfg.Valid() && Running(Execute(cfg, labels))
    ensures var s := Execute(cfg, labels);
            Quiet(s) <==> forall l :: !Effective(cfg, s, l)
  {
    hide Inv, Execute, Effective, Quiet;
    Reachable(cfg, labels);
    var s := Execute(cfg, labels);
    if Quiet(s) {
      forall l ensures !Effective(cfg, s, l) {
        QuietRests(cfg, s, l);
      }
    } else {
      var l := SomeoneMoves(cfg, s);
    }
  }

  // ------------------------------------------------------------------ every schedule

  /** Each of the steps `more` after `labels` is one of the server's own and does something. */
  ghost predicate Schedule(cfg: Config, labels: seq<Label>, more: seq<Label>) {
    forall i :: 0 <= i < |more| ==> Effective(cfg, Execute(cfg, labels + more[..i]), more[i])
  }

  lemma {:induction false} ScheduleLightens(cfg: Config, labels: seq<Label>, more: seq<Label>)
    requires cfg.Valid() && Running(Execute(cfg, labels)) && Schedule(cfg, labels, more)
    ensures var s := Execute(cfg, labels + more);
            Running(s) && |more| + Weight(s) <= Weight(Execute(cfg, labels))
  {
    hide Inv, Execute, Step, Weight, Effective, Running;
    if more == [] {
      assert labels + more == labels;
    } else {
      var n := |more| - 1;
      var init := labels + more[..n];
      assert forall i :: 0 <= i < n ==> more[..n][..i] == more[..i];
      ScheduleLightens(cfg, labels, more[..n]);
      Reachable(cfg, init);
      EveryStepLightens(cfg, Execute(cfg, init), more[n]);
      Then(cfg, init, more[n]);
      assert init + [more[n]] == labels + more;
    }
  }

  /** Every connection that is left has been answered in full. */
  ghost predicate AllAnswered(cfg: Config, s: State) {
    forall id :: id in s.table.flows ==>
      && id in s.table.connections && id in s.logs
      && s.logs[id].sent + s.table.connections[id].output ==
         ResponseStream(cfg.respond, Parse(s.logs[id].received).messages)
  }

  lemma {:induction false} QuietAnswersAll(cfg: Config, labels: seq<Label>)
    requires cfg.Valid() && Quiet(Execute(cfg, labels))
    ensures AllAnswered(cfg, Execute(cfg, labels))
  {
    hide Execute, ResponseStream, Parse;
    var s := Execute(cfg, labels);
    forall id | id in s.table.flows
      ensures && id in s.table.connections && id in s.logs
              && s.logs[id].sent + s.table.connections[id].output ==
                 ResponseStream(cfg.respond, Parse(s.logs[id].received).messages)
    {
      QuietMeansAnswered(cfg, labels, id);
    }
  }

  /** Every schedule quiesces. From every reachable state of a running server, and however the
      steps of its threads are scheduled, they are at most as many as the weight of that state;
      and where none is left the server is quiet and has answered every request received from
      every connection that is still there. */
  lemma {:induction false} EveryScheduleQuiesces(cfg: Config, labels: seq<Label>, more: seq<Label>)
    requires cfg.Valid() && Running(Execute(cfg, labels)) && Schedule(cfg, labels, more)
    ensures |more| <= Weight(Execute(cfg, labels))
    ensures var s := Execute(cfg, labels + more);
            (forall l :: !Effective(cfg, s, l)) ==> Quiet(s) && AllAnswered(cfg, s)
  {
    hide Execute, Weight, Effective, Quiet, Running, AllAnswered, Schedule;
    ScheduleLightens(cfg, labels, more);
    QuietIffAtRest(cfg, labels + more);
    if Quiet(Execute(cfg, labels + more)) {
      QuietAnswersAll(cfg, labels + more);
    }
  }

  /** In particular there is a schedule that leads to rest, without the network. */
  lemma {:induction false} CanAlwaysQuiesce(cfg: Config, labels: seq<Label>) returns (more: seq<Label>)
    requires cfg.Valid() && Running(Execute(cfg, labels))
    ensures forall i :: 0 <= i < |more| ==> Internal(more[i])
    ensures Quiet(Execute(cfg, labels + more)) && AllAnswered(cfg, Execute(cfg, labels + more))
    decreases Weight(Execute(cfg, labels))
  {
    hide Inv, Execute, Step, Weight, Quiet, Effective, Running, AllAnswered;
    Reachable(cfg, labels);
    if Quiet(Execute(cfg, labels)) {
      more := [];
      assert labels + more == labels;
      QuietAnswersAll(cfg, labels);
    } else {
      var l := SomeoneMoves(cfg, Execute(cfg, labels));
      EveryStepLightens(cfg, Execute(cfg, labels), l);
      Then(cfg, labels, l);
      var rest := CanAlwaysQuiesce(cfg, labels + [l]);
      more := [l] + rest;
      assert labels + more == (labels + [l]) + rest;
    }
  }
}
