/** How connections develop from step to step: each step concerns one connection only, an
    ended connection stays as it ended, and a half-closed one comes ever nearer to its end. */
module Progress {
  import opened Codec
  import opened Streams
  import opened Connections
  import opened Reactors
  import opened Servers
  import opened Invariants
  import opened Preservation
  import opened StepInvariants
  import opened Reachability
  import opened Theorems

  // ------------------------------------------------------------------- isolation

  /** The connection a step of the reactor is about, if any. */
  function Subject(s: State, l: Label): Option<nat> {
    if s.pc.Polling? && l.Event? then Some(l.id)
    else if s.pc.Submitting? then Some(s.pc.id)
    else if s.pc.Processing? && s.pc.batch != [] then Some(s.pc.batch[0].id)
    else None
  }

  /** The connection `id`, its flow and its log are the same in both states. */
  ghost predicate Same(s: State, s': State, id: nat) {
    && (id in s.table.connections <==> id in s'.table.connections)
    && (id in s.table.connections ==> s'.table.connections[id] == s.table.connections[id])
    && (id in s.table.flows <==> id in s'.table.flows)
    && (id in s.table.flows ==> s'.table.flows[id] == s.table.flows[id])
    && (id in s.logs ==> id in s'.logs && s'.logs[id] == s.logs[id])
  }

  lemma SettleIsLocal(cfg: Config, s: State, subject: nat, c: ConnState, f: Flow, log: Log, abort: bool, pc: Pc,
                      id: nat)
    requires TableOk(cfg, s.table) && subject in s.table.flows && f.registered == s.table.flows[subject].registered
    requires id != subject
    ensures Same(s, Record(s, subject, log, Settle(s.table, subject, c, f, abort), pc), id)
  {
    hide TableOk, Settle;
    SettleResult(cfg, s.table, subject, c, f, abort);
  }

  lemma ProcessIsLocal(cfg: Config, s: State, id: nat)
    requires Inv(cfg, s) && s.pc.Processing? && s.pc.batch != [] && id != s.pc.batch[0].id
    ensures Same(s, ProcessStep(cfg, s), id)
  {
    hide ConnectionsOk, ConservedOk, Outstanding, WakeupOk, SleepOk, QueueOk, DeliveryOk, TableOk, LogsOk,
         Settle, Complete, CompleteOutcome, LiveOk;
    var r := s.pc.batch[0];
    KeysAgree(cfg, s);
    if r.id in s.table.flows {
      var o := CompleteOutcome(cfg.maxOutput, s.table.connections[r.id], s.table.flows[r.id], s.logs[r.id], r);
      CompleteSettles(cfg.maxOutput, s.table, s.logs[r.id], r);
      ProcessRegistered(cfg, s);
      SettleIsLocal(cfg, s, r.id, o.connection, o.flow, s.logs[r.id], o.abort, Processing(s.pc.batch[1..]), id);
    }
  }

  lemma ProcessRegistered(cfg: Config, s: State)
    requires Inv(cfg, s) && s.pc.Processing? && s.pc.batch != []
    requires var r := s.pc.batch[0]; r.id in s.table.flows && r.id in s.table.connections && r.id in s.logs
    ensures var r := s.pc.batch[0];
            var o := CompleteOutcome(cfg.maxOutput, s.table.connections[r.id], s.table.flows[r.id], s.logs[r.id], r);
            o.flow.registered == s.table.flows[r.id].registered
  {
    hide ConnectionsOk, WakeupOk, SleepOk, QueueOk, DeliveryOk, TableOk, LogsOk, CompleteOutcome, ConnOk,
         AuthenticOk, AccountedOk;
    var r := s.pc.batch[0];
    assert s.pc.batch == [r] + s.pc.batch[1..];
    var out := Outstanding(cfg, s.(pc := Processing(s.pc.batch[1..])));
    assert Outstanding(cfg, s) == out + multiset{r};
    LiveFacts(cfg, s.table, s.logs, s.pc, r.id);
    CompletedAccounted(cfg, s.table.connections[r.id], s.table.flows[r.id], s.logs, r, out);
  }

  lemma EventIsLocal(cfg: Config, s: State, e: Label, id: nat)
    requires Inv(cfg, s) && s.pc.Polling? && e.Event? && id != e.id
    ensures Same(s, EventStep(cfg, s, e), id)
  {
    hide ConnectionsOk, ConservedOk, Outstanding, WakeupOk, SleepOk, QueueOk, DeliveryOk, TableOk, LogsOk,
         Settle, Parse, ReadOutcome;
    KeysAgree(cfg, s);
    if e.id in s.table.flows && e.error {
      SettleIsLocal(cfg, s, e.id, s.table.connections[e.id], s.table.flows[e.id], s.logs[e.id], true, Polling, id);
    }
  }

  lemma SubmitIsLocal(cfg: Config, s: State, l: Label, id: nat)
    requires Inv(cfg, s) && s.pc.Submitting? && id != s.pc.id
    ensures Same(s, ReactorStep(cfg, s, l), id)
  {
    hide ConnectionsOk, ConservedOk, Outstanding, WakeupOk, SleepOk, QueueOk, DeliveryOk, TableOk, LogsOk,
         Settle, FinishStep, FinishOutcome;
    KeysAgree(cfg, s);
    var k := s.pc.id;
    SettleIsLocal(cfg, s, k, s.table.connections[k], s.table.flows[k], s.logs[k], true, Polling, id);
    if l.Finish? {
      FinishIsLocal(cfg, s, l.sent, l.wrote, id);
    }
  }

  lemma FinishIsLocal(cfg: Config, s: State, sent: nat, wrote: WriteStatus, id: nat)
    requires TableOk(cfg, s.table) && s.pc.Submitting? && id != s.pc.id
    requires s.pc.id in s.table.connections && s.pc.id in s.table.flows && s.pc.id in s.logs
    ensures Same(s, FinishStep(cfg, s, sent, wrote), id)
  {
    hide TableOk, Settle, FinishStep;
    FinishSettles(cfg, s, sent, wrote);
    var k := s.pc.id;
    var n := if s.pc.writable && !s.pc.status.ReadProtocolError? then sent else 0;
    if FinishStep(cfg, s, sent, wrote) != s {
      var o := FinishOutcome(s.table.connections[k], s.table.flows[k], s.logs[k], s.pc, n, wrote);
      SettleIsLocal(cfg, s, k, o.connection, o.flow, o.log, o.abort, Polling, id);
    }
  }

  lemma AcceptIsLocal(maxConnections: nat, t: Table, registers: bool, id: nat)
    requires id != t.nextId
    ensures var u := Accept(maxConnections, t, registers).0;
            && (id in u.connections <==> id in t.connections) && (id in u.flows <==> id in t.flows)
            && (id in t.connections ==> u.connections[id] == t.connections[id])
            && (id in t.flows ==> u.flows[id] == t.flows[id])
  {}

  lemma ArriveIsLocal(cfg: Config, s: State, registers: bool, id: nat)
    requires id < s.table.nextId
    ensures Same(s, ArriveStep(cfg, s, registers), id)
  {
    hide Accept;
    AcceptIsLocal(cfg.maxConnections, s.table, registers, id);
  }

  lemma ReactorIsLocal(cfg: Config, s: State, l: Label, id: nat)
    requires Inv(cfg, s) && Subject(s, l) != Some(id) && id < s.table.nextId
    requires !(s.pc.Polling? && l.Shutdown?)
    ensures Same(s, ReactorStep(cfg, s, l), id)
  {
    hide Inv, Same, EventStep, ProcessStep, ArriveStep, SubmitStep, CountStep, FinishStep, ShutdownStep;
    var s' := ReactorStep(cfg, s, l);
    if s.pc.Submitting? {
      SubmitIsLocal(cfg, s, l, id);
    } else if s.pc.Polling? && l.Event? {
      EventIsLocal(cfg, s, l, id);
    } else if s.pc.Polling? && l.Arrive? {
      ArriveIsLocal(cfg, s, l.registers, id);
    } else if s.pc.Processing? && s.pc.batch != [] && l.Process? {
      ProcessIsLocal(cfg, s, id);
    } else {
      MovesOnly(cfg, s, l);
      Untouched(s, s', id);
    }
  }

  /** The other steps of the reactor touch no connection. */
  lemma MovesOnly(cfg: Config, s: State, l: Label)
    requires !s.pc.Submitting? && !(s.pc.Polling? && (l.Event? || l.Arrive? || l.Shutdown?))
    requires !(s.pc.Processing? && s.pc.batch != [] && l.Process?)
    ensures ReactorStep(cfg, s, l).table == s.table && ReactorStep(cfg, s, l).logs == s.logs
  {
    hide EventStep, ProcessStep, ArriveStep, SubmitStep, CountStep, FinishStep, ShutdownStep;
  }

  lemma Untouched(s: State, s': State, id: nat)
    requires s'.table == s.table && s'.logs == s.logs
    ensures Same(s, s', id)
  {}

  /** Isolation. Except for the shutdown, which ends all connections, a step leaves every
      connection alone that it is not about: a stale result, in particular, or an event for
      one client, never changes the state of another. */
  lemma {:induction false} Isolation(cfg: Config, s: State, l: Label, id: nat)
    requires Inv(cfg, s) && Subject(s, l) != Some(id) && id < s.table.nextId
    requires !(s.pc.Polling? && l.Shutdown?)
    ensures Same(s, Step(cfg, s, l), id)
  {
    hide Inv, ReactorStep;
    ReactorIsLocal(cfg, s, l, id);
  }

  // -------------------------------------------------------------------- finality

  /** A step leaves the log of an ended connection as it is. */
  lemma EndedStep(cfg: Config, s: State, l: Label, id: nat)
    requires Inv(cfg, s) && id in s.logs && !s.logs[id].ending.Open?
    ensures var s' := Step(cfg, s, l);
            id in s'.logs && s'.logs[id] == s.logs[id]
  {
    hide ConnectionsOk, ConservedOk, Outstanding, WakeupOk, SleepOk, QueueOk, DeliveryOk, TableOk, LogsOk, Step;
    KeysAgree(cfg, s);
    EndedIsGone(cfg, s, id);
    hide Inv;
    if s.pc.Polling? && l.Shutdown? {
      ShutdownKeepsEnded(cfg, s, l, id);
    } else if Subject(s, l) == Some(id) {
      GoneSubject(cfg, s, l, id);
    } else {
      Isolation(cfg, s, l, id);
    }
  }

  lemma EndedIsGone(cfg: Config, s: State, id: nat)
    requires ConnectionsOk(cfg, s.table, s.logs, s.pc) && id in s.logs && !s.logs[id].ending.Open?
    ensures id !in s.table.flows && id !in s.table.connections && id < s.table.nextId
    ensures s.pc.Submitting? ==> s.pc.id != id
  {
    hide Parse, LiveOk, EndedOk;
  }

  lemma ShutdownKeepsEnded(cfg: Config, s: State, l: Label, id: nat)
    requires s.pc.Polling? && l.Shutdown? && id in s.logs && id !in s.table.flows
    ensures id in Step(cfg, s, l).logs && Step(cfg, s, l).logs[id] == s.logs[id]
  {}

  /** An event or a result for a connection that is gone changes no connection at all. */
  lemma GoneSubject(cfg: Config, s: State, l: Label, id: nat)
    requires Subject(s, l) == Some(id) && !s.pc.Submitting?
    requires id !in s.table.connections && id !in s.table.flows
    ensures Step(cfg, s, l).table == s.table && Step(cfg, s, l).logs == s.logs
  {
    hide ArriveStep, SubmitStep, CountStep, FinishStep, ShutdownStep, Complete, Settle, Parse, ReadOutcome;
  }

  /** Identity. An id that ended is never used again: its log is final in every
      continuation of every run, and no connection ever has that id again. */
  lemma {:induction false} EndedIsFinal(cfg: Config, labels: seq<Label>, more: seq<Label>, id: nat)
    requires cfg.Valid()
    requires id in Execute(cfg, labels).logs && !Execute(cfg, labels).logs[id].ending.Open?
    ensures var s' := Execute(cfg, labels + more);
            && id in s'.logs && s'.logs[id] == Execute(cfg, labels).logs[id]
            && id !in s'.table.connections && id !in s'.table.flows
  {
    hide Inv, Step;
    if more == [] {
      assert labels + more == labels;
    } else {
      var init, l := more[..|more| - 1], more[|more| - 1];
      EndedIsFinal(cfg, labels, init, id);
      assert (labels + more)[..|labels + more| - 1] == labels + init;
      Reachable(cfg, labels + init);
      EndedStep(cfg, Execute(cfg, labels + init), l, id);
    }
    Reachable(cfg, labels + more);
    GoneInv(cfg, Execute(cfg, labels + more), id);
  }

  lemma GoneInv(cfg: Config, s: State, id: nat)
    requires Inv(cfg, s) && id in s.logs && !s.logs[id].ending.Open?
    ensures id !in s.table.connections && id !in s.table.flows
  {
    hide ConnectionsOk, ConservedOk, Outstanding, WakeupOk, SleepOk, QueueOk, DeliveryOk;
    EndedIsGone(cfg, s, id);
  }

  // -------------------------------------------------------------------- draining

  /** Responses that have not reached the reactor. */
  function Missing(f: Flow): int {
    f.nextRequest - f.nextResponse - |f.completed|
  }

  /** The lexicographic measure of what a connection still has to send. */
  ghost predicate Less(a: (int, int), b: (int, int)) {
    a.0 < b.0 || (a.0 == b.0 && a.1 < b.1)
  }

  function Measure(s: State, id: nat): (int, int)
    requires id in s.table.flows && id in s.table.connections
  {
    (Missing(s.table.flows[id]), |s.table.connections[id].output|)
  }

  /** The label makes progress on the connection: a result of it reaches the reactor, or
      `send` accepts some of its bytes. */
  ghost predicate Advances(s: State, l: Label, id: nat) {
    || (s.pc.Processing? && l.Process? && s.pc.batch != [] && s.pc.batch[0].id == id)
    || (s.pc.Submitting? && s.pc.id == id && l.Finish? && s.pc.writable && l.sent > 0)
  }

  lemma {:induction false} FlushLoopCount(maxOutput: nat, c: ConnState, f: Flow)
    ensures var r := FlushLoop(maxOutput, c, f);
            Missing(r.flow) == Missing(f) && r.flow.closeAfterFlush == f.closeAfterFlush
    decreases |f.completed|
  {
    hide Queued;
    if f.nextResponse in f.completed {
      var q := Queued(maxOutput, c.output, f.completed[f.nextResponse]);
      if q.Some? {
        Shrinks(f.completed, f.nextResponse);
        assert (f.completed - {f.nextResponse}).Keys == f.completed.Keys - {f.nextResponse};
        FlushLoopCount(maxOutput, c.(output := q.value), FlushedOne(f));
      }
    }
  }

  lemma CompletionAdvances(cfg: Config, s: State)
    requires Inv(cfg, s) && s.pc.Processing? && s.pc.batch != []
    requires s.pc.batch[0].id in s.table.flows
    ensures var id, s' := s.pc.batch[0].id, ProcessStep(cfg, s);
            id in s'.table.flows ==>
              && Missing(s'.table.flows[id]) < Missing(s.table.flows[id])
              && s'.table.flows[id].closeAfterFlush == s.table.flows[id].closeAfterFlush
  {
    hide ConnectionsOk, ConservedOk, Outstanding, WakeupOk, SleepOk, QueueOk, DeliveryOk, TableOk, LogsOk,
         Settle, Complete, FlushLoop, LiveOk, CompleteOutcome;
    var r := s.pc.batch[0];
    KeysAgree(cfg, s);
    var c, f, log := s.table.connections[r.id], s.table.flows[r.id], s.logs[r.id];
    var o := CompleteOutcome(cfg.maxOutput, c, f, log, r);
    CompleteSettles(cfg.maxOutput, s.table, log, r);
    ProcessRegistered(cfg, s);
    SettleResult(cfg, s.table, r.id, o.connection, o.flow, o.abort);
    ArrivingFirst(cfg, s);
    CompleteCount(cfg.maxOutput, c, f, log, r);
  }

  lemma CompleteCount(maxOutput: nat, c: ConnState, f: Flow, log: Log, r: WorkResult)
    requires r.sequence !in f.completed
    ensures var o := CompleteOutcome(maxOutput, c, f, log, r);
            Missing(o.flow) == Missing(f) - 1 && o.flow.closeAfterFlush == f.closeAfterFlush
  {
    hide FlushLoop;
    FlushLoopCount(maxOutput, c, WithResult(f, r));
    OneMore(f.completed, r.sequence, r.response);
  }

  lemma ArrivingFirst(cfg: Config, s: State)
    requires Inv(cfg, s) && s.pc.Processing? && s.pc.batch != [] && s.pc.batch[0].id in s.table.flows
    ensures s.pc.batch[0].sequence !in s.table.flows[s.pc.batch[0].id].completed
  {
    hide ConnectionsOk, WakeupOk, SleepOk, QueueOk, DeliveryOk, AuthenticOk, AccountedOk, Hands, Results;
    var r := s.pc.batch[0];
    assert r in Outstanding(cfg, s);
    ArrivingResult(cfg, s.table.flows[r.id], s.logs, r.id, r, Outstanding(cfg, s));
  }

  /** The `emplace` of a result never collides, in any reachable state. */
  lemma {:induction false} EmplaceNeverCollides(cfg: Config, labels: seq<Label>)
    requires cfg.Valid()
    ensures var s := Execute(cfg, labels);
            s.pc.Processing? && s.pc.batch != [] && s.pc.batch[0].id in s.table.flows ==>
              s.pc.batch[0].sequence !in s.table.flows[s.pc.batch[0].id].completed
  {
    hide Inv, Execute;
    Reachable(cfg, labels);
    var s := Execute(cfg, labels);
    if s.pc.Processing? && s.pc.batch != [] && s.pc.batch[0].id in s.table.flows {
      ArrivingFirst(cfg, s);
    }
  }

  /** The end of an event on a half-closed connection only sends. */
  lemma FinishAdvances(cfg: Config, s: State, sent: nat, wrote: WriteStatus)
    requires Inv(cfg, s) && s.pc.Submitting? && s.pc.id in s.table.flows && s.table.flows[s.pc.id].closeAfterFlush
    requires s.pc.id in s.table.connections && s.pc.id in s.logs
    ensures var id, s' := s.pc.id, FinishStep(cfg, s, sent, wrote);
            s' == s ||
            (id in s'.table.flows ==>
               && id in s'.table.connections && s'.table.flows[id].closeAfterFlush
               && !s.pc.status.ReadProtocolError?
               && Missing(s'.table.flows[id]) == Missing(s.table.flows[id])
               && |s'.table.connections[id].output| ==
                  |s.table.connections[id].output|
                  - if s.pc.writable && !s.pc.status.ReadProtocolError? then sent else 0)
  {
    hide ConnectionsOk, ConservedOk, Outstanding, WakeupOk, SleepOk, QueueOk, DeliveryOk, TableOk, LogsOk,
         Settle, FinishStep;
    KeysAgree(cfg, s);
    FinishSettles(cfg, s, sent, wrote);
    var id := s.pc.id;
    if FinishStep(cfg, s, sent, wrote) != s {
      var n := if s.pc.writable && !s.pc.status.ReadProtocolError? then sent else 0;
      var o := FinishOutcome(s.table.connections[id], s.table.flows[id], s.logs[id], s.pc, n, wrote);
      SettleResult(cfg, s.table, id, o.connection, o.flow, o.abort);
    }
  }

  /** What one step does to a half-closed connection. */
  lemma HalfClosedStep(cfg: Config, s: State, l: Label, id: nat)
    requires Inv(cfg, s) && id in s.table.flows && id in s.table.connections && s.table.flows[id].closeAfterFlush
    ensures var s' := Step(cfg, s, l);
            id in s'.table.flows && id in s'.table.connections ==>
              && s'.table.flows[id].closeAfterFlush
              && (Measure(s', id) == Measure(s, id) || Less(Measure(s', id), Measure(s, id)))
              && (Advances(s, l, id) && s' != s ==> Less(Measure(s', id), Measure(s, id)))
  {
    hide Inv, Step, ReactorStep, FinishStep, ProcessStep, Missing;
    if s.pc.Polling? && l.Shutdown? {
      ShutdownEmpties(cfg, s, l);
    } else if Subject(s, l) == Some(id) {
      SubjectStep(cfg, s, l, id);
    } else {
      KnownId(cfg, s, id);
      Isolation(cfg, s, l, id);
    }
  }

  lemma ShutdownEmpties(cfg: Config, s: State, l: Label)
    requires s.pc.Polling? && l.Shutdown?
    ensures Step(cfg, s, l) == s || Step(cfg, s, l).table.flows == map[]
  {}

  lemma KnownId(cfg: Config, s: State, id: nat)
    requires Inv(cfg, s) && id in s.table.flows
    ensures id < s.table.nextId && id in s.table.connections && id in s.logs
    ensures s.pc.Submitting? && s.pc.id == id && s.table.flows[id].closeAfterFlush ==>
              s.pc.todo == [] && s.pc.phase.Testing?
  {
    hide ConservedOk, Outstanding, WakeupOk, SleepOk, QueueOk, DeliveryOk, LiveOk, EndedOk, Parse;
  }

  lemma SubjectStep(cfg: Config, s: State, l: Label, id: nat)
    requires Inv(cfg, s) && id in s.table.flows && id in s.table.connections && s.table.flows[id].closeAfterFlush
    requires Subject(s, l) == Some(id)
    ensures var s' := Step(cfg, s, l);
            id in s'.table.flows && id in s'.table.connections ==>
              && s'.table.flows[id].closeAfterFlush
              && (Measure(s', id) == Measure(s, id) || Less(Measure(s', id), Measure(s, id)))
              && (Advances(s, l, id) && s' != s ==> Less(Measure(s', id), Measure(s, id)))
  {
    hide Inv, Step, FinishStep, ProcessStep, Missing, Settle;
    KnownId(cfg, s, id);
    if s.pc.Submitting? && l.Finish? {
      FinishAdvances(cfg, s, l.sent, l.wrote);
      FinishIsStep(cfg, s, l);
    } else if s.pc.Processing? && l.Process? {
      CompletionAdvances(cfg, s);
      ProcessIsStep(cfg, s, l);
    } else if s.pc.Polling? && l.error && id != SHUTDOWN_SIGNAL_KEY {
      ErrorEnds(cfg, s, id);
      ErrorIsStep(cfg, s, l);
    } else {
      SubjectRests(cfg, s, l, id);
    }
  }

  lemma FinishIsStep(cfg: Config, s: State, l: Label)
    requires s.pc.Submitting? && l.Finish? && s.pc.phase.Testing? && s.pc.todo == []
    requires s.pc.id in s.table.connections && s.pc.id in s.table.flows && s.pc.id in s.logs
    ensures Step(cfg, s, l) == FinishStep(cfg, s, l.sent, l.wrote)
  {
    hide FinishStep;
  }

  lemma ProcessIsStep(cfg: Config, s: State, l: Label)
    requires s.pc.Processing? && l.Process? && s.pc.batch != []
    ensures Step(cfg, s, l) == ProcessStep(cfg, s)
  {
    hide ProcessStep;
  }

  lemma ErrorIsStep(cfg: Config, s: State, l: Label)
    requires s.pc.Polling? && l.Event? && l.error && l.id != SHUTDOWN_SIGNAL_KEY
    requires l.id in s.table.connections && l.id in s.table.flows && l.id in s.logs
    ensures Step(cfg, s, l).table == Settle(s.table, l.id, s.table.connections[l.id], s.table.flows[l.id], true).0
  {
    hide Settle, Parse, ReadOutcome;
  }

  /** The other steps leave a half-closed connection alone, even those about it. */
  lemma SubjectRests(cfg: Config, s: State, l: Label, id: nat)
    requires Subject(s, l) == Some(id)
    requires id in s.table.connections && id in s.table.flows && id in s.logs && s.table.flows[id].closeAfterFlush
    requires s.pc.Submitting? ==> s.pc.todo == [] && s.pc.phase.Testing? && !l.Finish?
    requires s.pc.Processing? ==> !l.Process?
    requires s.pc.Polling? ==> !l.error || l.id == SHUTDOWN_SIGNAL_KEY
    ensures Step(cfg, s, l).table == s.table
  {
    hide Settle, Parse, ReadOutcome, ArriveStep, SubmitStep, CountStep, FinishStep, ProcessStep, ShutdownStep;
  }

  lemma ErrorEnds(cfg: Config, s: State, id: nat)
    requires Inv(cfg, s) && id in s.table.flows && id in s.table.connections
    ensures id !in Settle(s.table, id, s.table.connections[id], s.table.flows[id], true).0.flows
  {}

  /** Half-close drains completely. While a half-closed connection lives its measure is above
      zero and no step raises it; each of its results that reaches the reactor and each
      byte that `send` accepts lowers it, unless that step removes the connection. And if it
      is removed by draining, it was sent the responses to all it had asked. */
  lemma {:induction false} HalfCloseDrains(cfg: Config, labels: seq<Label>, l: Label, id: nat)
    requires cfg.Valid()
    requires var s := Execute(cfg, labels);
             id in s.table.flows && s.table.flows[id].closeAfterFlush
    ensures var s, s' := Execute(cfg, labels), Step(cfg, Execute(cfg, labels), l);
            && id in s.table.connections
            && Less((0, 0), Measure(s, id))
            && (id in s'.table.flows ==>
                  && id in s'.table.connections && s'.table.flows[id].closeAfterFlush
                  && (Measure(s', id) == Measure(s, id) || Less(Measure(s', id), Measure(s, id)))
                  && (Advances(s, l, id) && s' != s ==> Less(Measure(s', id), Measure(s, id))))
            && (id !in s'.table.flows ==>
                  && id in s'.logs && !s'.logs[id].ending.Open?
                  && (s'.logs[id].ending.Drained? ==>
                        s'.logs[id].sent == ResponseStream(cfg.respond, Requests(s'.logs[id]))))
  {
    hide Inv, Execute, Step, ResponseStream, Missing;
    Reachable(cfg, labels);
    var s := Execute(cfg, labels);
    StepInv(cfg, s, l);
    KnownId(cfg, s, id);
    StillOwes(cfg, s, id);
    HalfClosedStep(cfg, s, l, id);
    AfterStep(cfg, s, l, id);
  }

  lemma StillOwes(cfg: Config, s: State, id: nat)
    requires Inv(cfg, s) && cfg.Valid()
    requires id in s.table.flows && id in s.table.connections && s.table.flows[id].closeAfterFlush
    ensures Less((0, 0), Measure(s, id))
  {
    hide ConnectionsOk, ConservedOk, Outstanding, WakeupOk, SleepOk, QueueOk, DeliveryOk, TableOk, LogsOk, StreamOk;
    LiveFacts(cfg, s.table, s.logs, s.pc, id);
    LiveBounds(cfg, s.table, s.logs, s.pc, id);
    ReorderBound(cfg, s.table.flows[id], s.logs[id]);
  }

  lemma AfterStep(cfg: Config, s: State, l: Label, id: nat)
    requires Inv(cfg, s) && Inv(cfg, Step(cfg, s, l)) && id in s.table.flows
    ensures var s' := Step(cfg, s, l);
            && (id in s'.table.flows ==> id in s'.table.connections)
            && (id !in s'.table.flows ==>
                  && id in s'.logs && !s'.logs[id].ending.Open?
                  && (s'.logs[id].ending.Drained? ==>
                        s'.logs[id].sent == ResponseStream(cfg.respond, Requests(s'.logs[id]))))
  {
    hide ConservedOk, Outstanding, WakeupOk, SleepOk, QueueOk, DeliveryOk, LiveOk, Parse, Step, ResponseStream;
    KnownId(cfg, s, id);
    NextIdGrows(cfg, s, l);
    assert LogsOk(Step(cfg, s, l).table, Step(cfg, s, l).logs);
  }

  lemma NextIdGrows(cfg: Config, s: State, l: Label)
    requires Inv(cfg, s)
    ensures Step(cfg, s, l).table.nextId >= s.table.nextId
  {
    hide Inv, ArriveStep, EventStep, SubmitStep, CountStep, FinishStep, ProcessStep, ShutdownStep;
  }
}
