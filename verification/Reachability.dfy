/** Every reachable state satisfies the invariants. */
module Reachability {
  import opened Streams
  import opened Connections
  import opened Reactors
  import opened Servers
  import opened Invariants
  import opened Preservation
  import opened StepInvariants

  /** The invariants of the queue, the workers and the wake-up counter. */
  ghost predicate PoolOk(cfg: Config, s: State) {
    WakeupOk(s) && SleepOk(s) && QueueOk(cfg, s) && DeliveryOk(cfg, s)
  }

  // ------------------------------------------------------------ worker threads

  lemma WorkerInv(cfg: Config, s: State, w: nat)
    requires Inv(cfg, s) && w < |s.workers|
    ensures Inv(cfg, WorkerStep(cfg, s, w))
  {
    hide ConnectionsOk, ConservedOk, WakeupOk, SleepOk, QueueOk, DeliveryOk, Outstanding;
    WorkerMovesWork(cfg, s, w);
    WorkerKeepsWakeup(cfg, s, w);
    WorkerKeepsSleep(cfg, s, w);
    WorkerKeepsQueue(cfg, s, w);
    WorkerKeepsDelivery(cfg, s, w);
  }

  /** Waking workers changes neither the work in hand nor who is announcing or gone. */
  ghost predicate OnlyWakes(before: seq<Worker>, after: seq<Worker>) {
    && |after| == |before|
    && forall w :: 0 <= w < |before| ==> after[w] == before[w] || (before[w].Asleep? && after[w].Woken?)
  }

  lemma {:induction false} WakingKeepsHands(cfg: Config, before: seq<Worker>, after: seq<Worker>)
    requires OnlyWakes(before, after)
    ensures Hands(cfg, after) == Hands(cfg, before)
  {
    if before != [] {
      var n := |before| - 1;
      WakingKeepsHands(cfg, before[..n], after[..n]);
      assert InHand(cfg)(after[n]) == InHand(cfg)(before[n]);
    }
  }

  lemma WakingConserves(cfg: Config, s: State, workers: seq<Worker>)
    requires OnlyWakes(s.workers, workers)
    ensures Outstanding(cfg, s.(workers := workers)) == Outstanding(cfg, s)
    ensures DeliveryOk(cfg, s) ==> DeliveryOk(cfg, s.(workers := workers))
    ensures QueueOk(cfg, s) ==> QueueOk(cfg, s.(workers := workers))
    ensures WakeupOk(s) ==> WakeupOk(s.(workers := workers))
  {
    hide Hands, Results;
    WakingKeepsHands(cfg, s.workers, workers);
    if w :| 0 <= w < |s.workers| && s.workers[w].Announcing? {
      assert workers[w].Announcing?;
    }
  }

  lemma WakeOneSleep(workers: seq<Worker>, w: nat)
    ensures OnlyWakes(workers, WakeOne(workers, w))
    ensures SomeoneSleeps(WakeOne(workers, w)) ==> SomeoneSleeps(workers)
    ensures WokenCount(WakeOne(workers, w)) ==
            WokenCount(workers) + if w < |workers| && workers[w].Asleep? then 1 else 0
  {
    hide WokenCount;
    if w < |workers| && workers[w].Asleep? {
      WokenUpdate(workers, w, Woken);
      if v :| 0 <= v < |workers| && WakeOne(workers, w)[v].Asleep? {
        assert workers[v].Asleep?;
      }
    }
  }

  lemma SpuriousInv(cfg: Config, s: State, w: nat)
    requires Inv(cfg, s)
    ensures Inv(cfg, s.(workers := WakeOne(s.workers, w)))
  {
    hide ConnectionsOk, ConservedOk, WakeupOk, QueueOk, DeliveryOk, Outstanding, WokenCount, SomeoneSleeps,
         WakeOne, OnlyWakes;
    WakeOneSleep(s.workers, w);
    WakingConserves(cfg, s, WakeOne(s.workers, w));
  }

  lemma NotifyAllInv(cfg: Config, s: State)
    requires Inv(cfg, s)
    ensures Inv(cfg, s.(workers := WakeAll(s.workers), allOwed := false))
  {
    hide ConnectionsOk, ConservedOk, Outstanding, DeliveryOk, WakeupOk, QueueOk;
    WakingConserves(cfg, s, WakeAll(s.workers));
    assert !SomeoneSleeps(WakeAll(s.workers));
    AllOwedIsFree(cfg, s.(workers := WakeAll(s.workers)), false);
  }

  lemma AllOwedIsFree(cfg: Config, s: State, owed: bool)
    ensures Outstanding(cfg, s.(allOwed := owed)) == Outstanding(cfg, s)
    ensures DeliveryOk(cfg, s) == DeliveryOk(cfg, s.(allOwed := owed))
    ensures QueueOk(cfg, s) == QueueOk(cfg, s.(allOwed := owed))
    ensures WakeupOk(s) == WakeupOk(s.(allOwed := owed))
  {}

  lemma CounterInv(cfg: Config, s: State)
    requires Inv(cfg, s)
    ensures Inv(cfg, s.(counter := Bumped(s.counter)))
  {
    hide ConnectionsOk, ConservedOk;
    assert Outstanding(cfg, s.(counter := Bumped(s.counter))) == Outstanding(cfg, s);
  }

  // ------------------------------------------------------------ reactor thread

  /** A reactor step that touches connections only. */
  ghost predicate SamePool(s: State, s': State) {
    && s'.queue == s.queue && s'.queueClosed == s.queueClosed && s'.allOwed == s.allOwed
    && s'.workers == s.workers && s'.stored == s.stored && s'.counter == s.counter
    && s'.accepted == s.accepted && s'.popped == s.popped && s'.published == s.published
  }

  lemma PoolStays(cfg: Config, s: State, s': State)
    requires PoolOk(cfg, s) && SamePool(s, s')
    requires Owed(s'.pc) >= Owed(s.pc)
    requires (s.pc.Draining? || s.pc.Swapping?) ==> (s'.pc.Draining? || s'.pc.Swapping?)
    ensures PoolOk(cfg, s')
  {
    hide Hands, Results, WokenCount;
  }

  lemma OutstandingStays(cfg: Config, s: State, s': State)
    requires SamePool(s, s') && Batch(s'.pc) == Batch(s.pc)
    ensures Outstanding(cfg, s') == Outstanding(cfg, s)
  {
    hide Hands, Results;
  }

  lemma LocalInv(cfg: Config, s: State, s': State)
    requires Inv(cfg, s) && SamePool(s, s')
    requires Batch(s'.pc) == Batch(s.pc) && Owed(s'.pc) >= Owed(s.pc)
    requires (s.pc.Draining? || s.pc.Swapping?) ==> (s'.pc.Draining? || s'.pc.Swapping?)
    requires ConnectionsOk(cfg, s'.table, s'.logs, s'.pc) && StatusOk(cfg, s'.logs, s'.pc)
    requires ConservedOk(cfg, s'.table.flows, s'.logs, s'.pc, Outstanding(cfg, s))
    ensures Inv(cfg, s')
  {
    hide ConnectionsOk, ConservedOk, WakeupOk, SleepOk, QueueOk, DeliveryOk, Outstanding, SamePool;
    PoolStays(cfg, s, s');
    OutstandingStays(cfg, s, s');
  }

  lemma ArriveParts(cfg: Config, s: State, registers: bool, out: multiset<WorkResult>)
    requires ConnectionsOk(cfg, s.table, s.logs, s.pc) && s.pc.Polling?
    requires ConservedOk(cfg, s.table.flows, s.logs, s.pc, out)
    ensures var s' := ArriveStep(cfg, s, registers);
            && ConnectionsOk(cfg, s'.table, s'.logs, s'.pc)
            && ConservedOk(cfg, s'.table.flows, s'.logs, s'.pc, out)
  {
    hide ConnectionsOk, ConservedOk, LogsOk, TableOk;
    var (u, r) := Accept(cfg.maxConnections, s.table, registers);
    KeysAgree(cfg, s);
    match r
    case TurnedAway =>
    case OutOfIds =>
      MoveOk(cfg, s.table, s.logs, Polling, Failed);
      MoveConserves(cfg, s.table.flows, s.logs, Polling, Failed, out);
    case Refused =>
      RefusedOk(cfg, s.table, u, s.logs);
      RefusedConserves(cfg, s.table, s.logs, NEW_LOG.(ending := Aborted), out);
    case Joined =>
      JoinedOk(cfg, s.table, u, s.logs);
      ArriveConserves(cfg, s.table, s.logs, NEW_LOG, out);
  }

  lemma ArriveInv(cfg: Config, s: State, registers: bool)
    requires Inv(cfg, s) && s.pc.Polling?
    ensures Inv(cfg, ArriveStep(cfg, s, registers))
  {
    hide ConnectionsOk, ConservedOk, Outstanding, WakeupOk, SleepOk, QueueOk, DeliveryOk, Accept;
    ArriveParts(cfg, s, registers, Outstanding(cfg, s));
    LocalInv(cfg, s, ArriveStep(cfg, s, registers));
  }

  lemma EventParts(cfg: Config, s: State, e: Label, out: multiset<WorkResult>)
    requires ConnectionsOk(cfg, s.table, s.logs, s.pc) && s.pc.Polling? && e.Event?
    requires ConservedOk(cfg, s.table.flows, s.logs, s.pc, out)
    ensures var s' := EventStep(cfg, s, e);
            && ConnectionsOk(cfg, s'.table, s'.logs, s'.pc)
            && ConservedOk(cfg, s'.table.flows, s'.logs, s'.pc, out)
  {
    hide ConnectionsOk, ConservedOk, Parse, ReadOutcome, Settle, TableOk, LogsOk;
    var id := e.id;
    KeysAgree(cfg, s);
    if id in s.table.connections && id in s.logs {
      if e.error {
        AbortOk(cfg, s.table, s.logs, s.pc, id);
        SettleSame(cfg, s.table, s.logs, s.pc, id, s.table.connections[id], s.table.flows[id], s.logs[id], true, out);
      } else if e.readable && !s.table.flows[id].closeAfterFlush {
        ReadStepOk(cfg, s, e);
        ReadConserves(cfg, s, e, out);
      } else {
        EnterOk(cfg, s.table, s.logs, id, e.writable);
        MoveConserves(cfg, s.table.flows, s.logs, s.pc, EventStep(cfg, s, e).pc, out);
      }
    }
  }

  lemma EventStatus(cfg: Config, s: State, e: Label)
    requires s.pc.Polling? && e.Event?
    ensures var s' := EventStep(cfg, s, e);
            StatusOk(cfg, s'.logs, s'.pc)
  {
    hide Parse, Settle;
  }

  lemma EventInv(cfg: Config, s: State, e: Label)
    requires Inv(cfg, s) && s.pc.Polling? && e.Event?
    ensures Inv(cfg, EventStep(cfg, s, e))
  {
    hide ConnectionsOk, ConservedOk, Outstanding, WakeupOk, SleepOk, QueueOk, DeliveryOk, Parse, ReadOutcome, Settle;
    EventParts(cfg, s, e, Outstanding(cfg, s));
    EventStatus(cfg, s, e);
    LocalInv(cfg, s, EventStep(cfg, s, e));
  }

  lemma KeysAgree(cfg: Config, s: State)
    requires ConnectionsOk(cfg, s.table, s.logs, s.pc)
    ensures s.table.connections.Keys == s.table.flows.Keys && TableOk(cfg, s.table) && LogsOk(s.table, s.logs)
    ensures forall id :: id in s.table.flows ==> id in s.logs
    ensures PcOk(cfg, s.table, s.pc)
  {
    hide LiveOk, EndedOk, Parse;
  }

  /** An event that reads nothing. */
  lemma EnterOk(cfg: Config, t: Table, logs: map<nat, Log>, id: nat, writable: bool)
    requires ConnectionsOk(cfg, t, logs, Polling) && id in t.flows
    ensures ConnectionsOk(cfg, t, logs, Submitting(id, [], Testing, ReadOk, writable))
  {
    hide ConnectionsOk;
    MoveOk(cfg, t, logs, Polling, Submitting(id, [], Testing, ReadOk, writable));
  }

  // ------------------------------------------------------------------ submitting

  lemma PushPool(cfg: Config, s: State, item: WorkItem)
    requires PoolOk(cfg, s) && s.pc.Submitting? && s.pc.phase.Testing?
    requires !s.queueClosed && |s.queue| < cfg.queueCapacity
    ensures var s' := s.(queue := s.queue + [item], accepted := s.accepted + [item], pc := s.pc.(phase := Pushed));
            && PoolOk(cfg, s')
            && Outstanding(cfg, s') == Outstanding(cfg, s) + multiset{Perform(cfg, item)}
  {
    hide Hands, Results, WokenCount;
    ResultsAppend(cfg, s.queue, item);
    assert s.accepted + [item] == s.popped + (s.queue + [item]);
  }

  lemma SubmitInv(cfg: Config, s: State)
    requires Inv(cfg, s) && s.pc.Submitting? && s.pc.phase.Testing? && s.pc.todo != []
    requires s.pc.id in s.table.connections && s.pc.id in s.table.flows && s.pc.id in s.logs
    ensures Inv(cfg, SubmitStep(cfg, s))
  {
    hide ConnectionsOk, ConservedOk, Outstanding, WakeupOk, SleepOk, QueueOk, DeliveryOk, Settle, TableOk, LogsOk;
    var id, s' := s.pc.id, SubmitStep(cfg, s);
    var out, f := Outstanding(cfg, s), s.table.flows[s.pc.id];
    KeysAgree(cfg, s);
    if f.nextRequest - f.nextResponse >= cfg.maxInFlight || s.queueClosed || |s.queue| >= cfg.queueCapacity {
      AbortOk(cfg, s.table, s.logs, s.pc, id);
      SettleSame(cfg, s.table, s.logs, s.pc, id, s.table.connections[id], f, s.logs[id], true, out);
      LocalInv(cfg, s, s');
    } else {
      PushPool(cfg, s, WorkItem(id, f.nextRequest, s.pc.todo[0]));
      PushedParts(cfg, s, out);
    }
  }

  lemma PushedParts(cfg: Config, s: State, out: multiset<WorkResult>)
    requires ConnectionsOk(cfg, s.table, s.logs, s.pc) && ConservedOk(cfg, s.table.flows, s.logs, s.pc, out)
    requires s.pc.Submitting? && s.pc.phase.Testing? && s.pc.todo != []
    requires s.pc.id in s.table.connections && s.pc.id in s.table.flows && s.pc.id in s.logs
    requires s.table.flows[s.pc.id].nextRequest - s.table.flows[s.pc.id].nextResponse < cfg.maxInFlight
    ensures ConnectionsOk(cfg, s.table, s.logs, s.pc.(phase := Pushed))
    ensures var item := WorkItem(s.pc.id, s.table.flows[s.pc.id].nextRequest, s.pc.todo[0]);
            ConservedOk(cfg, s.table.flows, s.logs, s.pc.(phase := Pushed), out + multiset{Perform(cfg, item)})
  {
    hide ConnectionsOk, ConservedOk, TableOk, LogsOk, ConnOk, StreamOk;
    var id := s.pc.id;
    KeysAgree(cfg, s);
    LiveFacts(cfg, s.table, s.logs, s.pc, id);
    ConnStream(cfg, s.table.connections[id], s.table.flows[id], s.logs[id], s.pc.todo);
    MoveOk(cfg, s.table, s.logs, s.pc, s.pc.(phase := Pushed));
    PushConserves(cfg, s, out);
  }

  lemma NotifyInv(cfg: Config, s: State, w: nat)
    requires Inv(cfg, s) && s.pc.Submitting? && s.pc.phase.Pushed?
    requires SomeoneSleeps(s.workers) ==> w < |s.workers| && s.workers[w].Asleep?
    ensures Inv(cfg, s.(workers := WakeOne(s.workers, w), pc := s.pc.(phase := Notified)))
  {
    hide ConnectionsOk, ConservedOk, Outstanding, WakeupOk, QueueOk, DeliveryOk, WokenCount, SomeoneSleeps,
         WakeOne, OnlyWakes;
    var u, next := s.(workers := WakeOne(s.workers, w)), s.pc.(phase := Notified);
    WakeOneSleep(s.workers, w);
    WakingConserves(cfg, s, WakeOne(s.workers, w));
    PhaseIsFree(cfg, u, next);
    NotifyParts(cfg, s, Outstanding(cfg, s));
  }

  lemma NotifyParts(cfg: Config, s: State, out: multiset<WorkResult>)
    requires ConnectionsOk(cfg, s.table, s.logs, s.pc) && ConservedOk(cfg, s.table.flows, s.logs, s.pc, out)
    requires s.pc.Submitting? && s.pc.phase.Pushed?
    ensures ConnectionsOk(cfg, s.table, s.logs, s.pc.(phase := Notified))
    ensures ConservedOk(cfg, s.table.flows, s.logs, s.pc.(phase := Notified), out)
  {
    hide ConnectionsOk, ConservedOk, TableOk, LogsOk;
    KeysAgree(cfg, s);
    MoveOk(cfg, s.table, s.logs, s.pc, s.pc.(phase := Notified));
    MoveConserves(cfg, s.table.flows, s.logs, s.pc, s.pc.(phase := Notified), out);
  }

  /** Moving the reactor between positions without a batch. */
  lemma PhaseIsFree(cfg: Config, s: State, next: Pc)
    requires Batch(next) == Batch(s.pc)
    requires (s.pc.Draining? || s.pc.Swapping?) ==> (next.Draining? || next.Swapping?)
    ensures Outstanding(cfg, s.(pc := next)) == Outstanding(cfg, s)
    ensures DeliveryOk(cfg, s) ==> DeliveryOk(cfg, s.(pc := next))
    ensures QueueOk(cfg, s) ==> QueueOk(cfg, s.(pc := next))
    ensures WakeupOk(s) ==> WakeupOk(s.(pc := next))
  {
    hide Hands, Results;
  }

  lemma CountInv(cfg: Config, s: State)
    requires Inv(cfg, s) && s.pc.Submitting? && s.pc.phase.Notified? && s.pc.todo != []
    requires s.pc.id in s.table.flows && s.pc.id in s.logs
    ensures Inv(cfg, CountStep(s))
  {
    hide ConnectionsOk, ConservedOk, Outstanding, WakeupOk, SleepOk, QueueOk, DeliveryOk;
    CountOk(cfg, s.table, s.logs, s.pc);
    CountConserves(cfg, s.table.flows, s.logs, s.pc, Outstanding(cfg, s));
    LocalInv(cfg, s, CountStep(s));
  }

  lemma FinishParts(cfg: Config, s: State, sent: nat, wrote: WriteStatus, out: multiset<WorkResult>)
    requires ConnectionsOk(cfg, s.table, s.logs, s.pc) && ConservedOk(cfg, s.table.flows, s.logs, s.pc, out)
    requires s.pc.Submitting? && s.pc.phase.Testing? && s.pc.todo == []
    requires s.pc.id in s.table.connections && s.pc.id in s.table.flows && s.pc.id in s.logs
    requires sent <= |s.table.connections[s.pc.id].output|
    ensures var id := s.pc.id;
            var o := FinishOutcome(s.table.connections[id], s.table.flows[id], s.logs[id], s.pc, sent, wrote);
            var s' := Record(s, id, o.log, Settle(s.table, id, o.connection, o.flow, o.abort), Polling);
            && ConnectionsOk(cfg, s'.table, s'.logs, s'.pc)
            && ConservedOk(cfg, s'.table.flows, s'.logs, s'.pc, out)
  {
    hide ConnectionsOk, ConservedOk, TableOk, LogsOk, ConnOk, StreamOk, Settle, FinishOutcome;
    var t, id := s.table, s.pc.id;
    LiveFacts(cfg, t, s.logs, s.pc, id);
    var o := FinishOutcome(t.connections[id], t.flows[id], s.logs[id], s.pc, sent, wrote);
    FinishedConn(cfg, t.connections[id], t.flows[id], s.logs[id], s.pc, sent, wrote);
    SettleOk(cfg, t, s.logs, s.pc, id, o.connection, o.flow, o.log, o.abort, Polling);
    SettleSame(cfg, t, s.logs, s.pc, id, o.connection, o.flow, o.log, o.abort, out);
  }

  lemma FinishInv(cfg: Config, s: State, sent: nat, wrote: WriteStatus)
    requires Inv(cfg, s) && s.pc.Submitting? && s.pc.phase.Testing? && s.pc.todo == []
    requires s.pc.id in s.table.connections && s.pc.id in s.table.flows && s.pc.id in s.logs
    ensures Inv(cfg, FinishStep(cfg, s, sent, wrote))
  {
    hide ConnectionsOk, ConservedOk, Outstanding, WakeupOk, SleepOk, QueueOk, DeliveryOk, TableOk, LogsOk,
         Settle, FinishStep, FinishOutcome;
    KeysAgree(cfg, s);
    FinishSettles(cfg, s, sent, wrote);
    var s' := FinishStep(cfg, s, sent, wrote);
    if s' != s {
      var n := if s.pc.writable && !s.pc.status.ReadProtocolError? then sent else 0;
      FinishParts(cfg, s, n, wrote, Outstanding(cfg, s));
      LocalInv(cfg, s, s');
    }
  }

  // -------------------------------------------------------------------- wake-ups

  lemma MoveInv(cfg: Config, s: State, next: Pc)
    requires Inv(cfg, s) && !s.pc.Submitting? && !next.Submitting? && Batch(next) == Batch(s.pc)
    requires (s.pc.Draining? || s.pc.Swapping?) ==> (next.Draining? || next.Swapping?)
    ensures Inv(cfg, s.(pc := next))
  {
    hide ConnectionsOk, ConservedOk, Outstanding, WakeupOk, SleepOk, QueueOk, DeliveryOk;
    MoveOk(cfg, s.table, s.logs, s.pc, next);
    MoveConserves(cfg, s.table.flows, s.logs, s.pc, next, Outstanding(cfg, s));
    LocalInv(cfg, s, s.(pc := next));
  }

  lemma DrainInv(cfg: Config, s: State)
    requires Inv(cfg, s) && s.pc.Draining?
    ensures Inv(cfg, s.(counter := 0))
  {
    hide ConnectionsOk, ConservedOk, Hands, Results;
    assert Outstanding(cfg, s.(counter := 0)) == Outstanding(cfg, s);
  }

  lemma SwapInv(cfg: Config, s: State)
    requires Inv(cfg, s) && s.pc.Swapping?
    ensures Inv(cfg, s.(pc := Processing(s.stored), stored := []))
  {
    hide ConnectionsOk, ConservedOk, Hands, Results, WokenCount;
    var s' := s.(pc := Processing(s.stored), stored := []);
    assert Outstanding(cfg, s') == Outstanding(cfg, s);
    MoveOk(cfg, s.table, s.logs, s.pc, s'.pc);
    MoveConserves(cfg, s.table.flows, s.logs, s.pc, s'.pc, Outstanding(cfg, s));
  }

  /** Taking one result out of the batch. */
  lemma TakenOut(cfg: Config, s: State, s': State)
    requires PoolOk(cfg, s) && SamePool(s, s')
    requires s.pc.Processing? && s.pc.batch != [] && s'.pc == Processing(s.pc.batch[1..])
    ensures PoolOk(cfg, s')
    ensures Outstanding(cfg, s) == Outstanding(cfg, s') + multiset{s.pc.batch[0]}
  {
    hide Hands, Results, WokenCount;
    assert s.pc.batch == [s.pc.batch[0]] + s.pc.batch[1..];
  }

  lemma ProcessInv(cfg: Config, s: State)
    requires Inv(cfg, s) && s.pc.Processing? && s.pc.batch != []
    ensures Inv(cfg, ProcessStep(cfg, s))
  {
    hide ConnectionsOk, ConservedOk, Outstanding, WakeupOk, SleepOk, QueueOk, DeliveryOk, TableOk, LogsOk,
         LiveOk, Complete;
    var s', r := ProcessStep(cfg, s), s.pc.batch[0];
    var out := Outstanding(cfg, s');
    TakenOut(cfg, s, s');
    KeysAgree(cfg, s);
    if r.id in s.table.flows {
      LiveFacts(cfg, s.table, s.logs, s.pc, r.id);
      ProcessOk(cfg, s.table, s.logs, s.pc, r, s'.pc, Outstanding(cfg, s));
      ProcessConserves(cfg, s.table, s.logs, s.pc, r, s'.pc, out);
    } else {
      MoveOk(cfg, s.table, s.logs, s.pc, s'.pc);
      StaleConserves(cfg, s.table.flows, s.logs, s.pc, r, s'.pc, out);
    }
  }

  lemma ShutdownInv(cfg: Config, s: State, order: seq<nat>)
    requires Inv(cfg, s) && s.pc.Polling?
    ensures Inv(cfg, ShutdownStep(s, order))
  {
    hide ConnectionsOk, ConservedOk, Outstanding, WakeupOk, SleepOk, QueueOk, DeliveryOk, RemoveAll;
    ShutdownOk(cfg, s, order);
    ShutdownConserves(cfg, s, order, Outstanding(cfg, s));
    LocalInv(cfg, s, ShutdownStep(s, order));
  }

  lemma ClosePoolInv(cfg: Config, s: State)
    requires Inv(cfg, s)
    ensures Inv(cfg, s.(queueClosed := true, allOwed := true))
  {
    hide ConnectionsOk, ConservedOk, Hands, Results, WokenCount;
    assert Outstanding(cfg, s.(queueClosed := true, allOwed := true)) == Outstanding(cfg, s);
  }

  // --------------------------------------------------------------------- all steps

  lemma ReactorInv(cfg: Config, s: State, l: Label)
    requires Inv(cfg, s)
    ensures Inv(cfg, ReactorStep(cfg, s, l))
  {
    hide Inv, ArriveStep, EventStep, SubmitStep, CountStep, FinishStep, ProcessStep, ShutdownStep;
    match s.pc
    case Polling =>
      if l.Arrive? { ArriveInv(cfg, s, l.registers); }
      else if l.Event? { EventInv(cfg, s, l); }
      else if l.Wake? { MoveInv(cfg, s, Draining); }
      else if l.Shutdown? { ShutdownInv(cfg, s, l.order); }
    case Submitting(id, todo, phase, _, _) =>
      if id in s.table.connections && id in s.table.flows && id in s.logs {
        if l.Submit? && phase.Testing? && todo != [] { SubmitInv(cfg, s); }
        else if l.NotifyOne? && phase.Pushed? {
          if SomeoneSleeps(s.workers) ==> l.woken < |s.workers| && s.workers[l.woken].Asleep? {
            NotifyInv(cfg, s, l.woken);
          }
        }
        else if l.Count? && phase.Notified? && todo != [] { CountInv(cfg, s); }
        else if l.Finish? && phase.Testing? && todo == [] { FinishInv(cfg, s, l.sent, l.wrote); }
      }
    case Draining =>
      if l.DrainCounter? { if s.counter > 0 { DrainInv(cfg, s); } else { MoveInv(cfg, s, Swapping); } }
    case Swapping => if l.Swap? { SwapInv(cfg, s); }
    case Processing(batch) =>
      if l.Process? { if batch == [] { MoveInv(cfg, s, Polling); } else { ProcessInv(cfg, s); } }
    case Stopped => if l.ClosePool? { ClosePoolInv(cfg, s); }
    case Failed => if l.ClosePool? { ClosePoolInv(cfg, s); }
  }

  lemma {:induction false} StepInv(cfg: Config, s: State, l: Label)
    requires Inv(cfg, s)
    ensures Inv(cfg, Step(cfg, s, l))
  {
    hide Inv, ReactorStep, WorkerStep;
    match l
    case Work(w) => if w < |s.workers| { WorkerInv(cfg, s, w); }
    case Spurious(w) => SpuriousInv(cfg, s, w);
    case NotifyAll => if s.allOwed { NotifyAllInv(cfg, s); }
    case RequestStop => CounterInv(cfg, s);
    case _ => ReactorInv(cfg, s, l);
  }

  lemma {:induction false} IdleHands(cfg: Config, workers: seq<Worker>)
    requires forall w :: 0 <= w < |workers| ==> workers[w].Ready?
    ensures Hands(cfg, workers) == []
  {
    if workers != [] {
      IdleHands(cfg, workers[..|workers| - 1]);
    }
  }

  lemma InitialInv(cfg: Config)
    requires cfg.Valid()
    ensures Inv(cfg, Initial(cfg))
  {
    IdleHands(cfg, Initial(cfg).workers);
  }

  /** Whatever the threads and the environment do, the invariants hold. */
  lemma {:induction false} Reachable(cfg: Config, labels: seq<Label>)
    requires cfg.Valid()
    ensures Inv(cfg, Execute(cfg, labels))
  {
    if labels == [] {
      InitialInv(cfg);
    } else {
      hide Inv, Step;
      Reachable(cfg, labels[..|labels| - 1]);
      StepInv(cfg, Execute(cfg, labels[..|labels| - 1]), labels[|labels| - 1]);
    }
  }
}
