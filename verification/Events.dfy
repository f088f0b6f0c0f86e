/** What a connection event comes to from its report to its end, and the order in which results
    reach the reactor. */
module Events {
  import opened Codec
  import opened Streams
  import opened Connections
  import opened Reactors
  import opened Servers
  import opened Invariants
  import opened Reachability
  import opened Draining
  import opened Conversation

  // ------------------------------------------------------------- an event in full

  /** The event reads: it is reported readable, and the client has not half-closed. */
  predicate IsRead(s: State, e: Label) {
    e.Event? && e.readable && e.id in s.table.flows && !s.table.flows[e.id].closeAfterFlush
  }

  /** The event is reported for a connection that is there, and its read is one that may happen. */
  ghost predicate Reported(cfg: Config, s: State, e: Label) {
    && s.pc.Polling? && e.Event? && !e.error && e.id != 0xFFFF_FFFF_FFFF_FFFE
    && e.id in s.table.connections && e.id in s.table.flows && e.id in s.logs
    && (IsRead(s, e) ==>
          var input := s.table.connections[e.id].input;
          ReadOutcome(cfg.maxInput, cfg.readBudget, input, e.received, e.result, Parse(input + e.received).rest))
  }

  /** Where an event stands whose messages are being submitted, or have been. */
  ghost predicate UnderWay(s: State, id: nat, status: ReadStatus, writable: bool, output: seq<Byte>, f: Flow,
                           log: Log) {
    && s.pc.Submitting? && s.pc.id == id && s.pc.status == status && s.pc.writable == writable
    && id in s.table.connections && s.table.connections[id].output == output
    && id in s.table.flows && s.table.flows[id] == f.(nextRequest := s.table.flows[id].nextRequest)
    && id in s.logs && s.logs[id] == log
  }

  lemma EventStarts(cfg: Config, s: State, e: Label)
    requires Reported(cfg, s, e)
    ensures var t, id := Step(cfg, s, e), e.id;
            && id in t.logs
            && t.logs[id].received == s.logs[id].received + (if IsRead(s, e) then e.received else [])
            && t.logs[id].sent == s.logs[id].sent
            && UnderWay(t, id, if IsRead(s, e) then e.result.status else ReadOk, e.writable,
                        s.table.connections[id].output, s.table.flows[id], t.logs[id])
  {
    hide Parse, ReadOutcome, Settle;
    assert s.logs[e.id].received + [] == s.logs[e.id].received;
  }

  lemma EventGoesOn(cfg: Config, s: State, l: Label, id: nat, status: ReadStatus, writable: bool,
                    output: seq<Byte>, f: Flow, log: Log)
    requires UnderWay(s, id, status, writable, output, f, log) && Step(cfg, s, l).pc.Submitting?
    ensures UnderWay(Step(cfg, s, l), id, status, writable, output, f, log)
  {
    hide ArriveStep, EventStep, ProcessStep, ShutdownStep, Settle, Conclude, WriteOutcome, WorkerStep, WakeOne, WakeAll;
    if l.Work? && l.worker < |s.workers| {
      WorkerKeepsTable(cfg, s, l.worker);
      WorkerKeepsOpen(cfg, s, l.worker);
    }
  }

  /** The steps `middle` leave the event of `labels` under way. */
  ghost predicate StaysUnderWay(cfg: Config, labels: seq<Label>, middle: seq<Label>) {
    forall i :: 0 <= i <= |middle| ==> Execute(cfg, labels + middle[..i]).pc.Submitting?
  }

  lemma {:induction false} EventContinues(cfg: Config, labels: seq<Label>, middle: seq<Label>, id: nat,
                                          status: ReadStatus, writable: bool, output: seq<Byte>, f: Flow, log: Log)
    requires StaysUnderWay(cfg, labels, middle)
    requires UnderWay(Execute(cfg, labels), id, status, writable, output, f, log)
    ensures UnderWay(Execute(cfg, labels + middle), id, status, writable, output, f, log)
  {
    hide Execute, Step, UnderWay;
    if middle == [] {
      assert labels + middle == labels;
    } else {
      var n := |middle| - 1;
      assert forall i :: 0 <= i <= n ==> middle[..n][..i] == middle[..i];
      EventContinues(cfg, labels, middle[..n], id, status, writable, output, f, log);
      assert middle[..n + 1] == middle;
      Then(cfg, labels + middle[..n], middle[n]);
      assert labels + middle[..n] + [middle[n]] == labels + middle;
      EventGoesOn(cfg, Execute(cfg, labels + middle[..n]), middle[n], id, status, writable, output, f, log);
    }
  }

  /** What `send` may do with `output`: it takes the first `n` bytes, within the budget; all is
      well exactly if everything or the whole budget went out. */
  predicate Legal(budget: nat, output: seq<Byte>, n: nat, wrote: WriteStatus) {
    && n <= |output| && n <= budget
    && (if wrote.WriteOk? then n == |output| || n == budget else n < |output| && n < budget)
  }

  /** The event `e`, reported in `s` and about to end in `t`, has ended in `u` with a write of
      `n` bytes: exactly what was to be read was read, exactly what was to be sent was sent, and
      the connection is gone exactly if the read was rejected, the peer was gone, or a
      half-closed client has been sent everything. */
  ghost predicate EventDone(cfg: Config, s: State, e: Label, t: State, n: nat, wrote: WriteStatus, u: State) {
    && e.Event? && e.id in s.table.connections && e.id in s.table.flows && e.id in s.logs && e.id in t.table.flows
    && var id, f, output := e.id, s.table.flows[e.id], s.table.connections[e.id].output;
    var rejected := IsRead(s, e) && e.result.status.ReadProtocolError?;
    var closes := f.closeAfterFlush || (IsRead(s, e) && e.result.status.ReadPeerClosed?);
    var writes := e.writable && !rejected;
    && (writes ==> Legal(cfg.writeBudget, output, n, wrote))
    && u.pc.Polling? && id in u.logs
    && u.logs[id].received == s.logs[id].received + (if IsRead(s, e) then e.received else [])
    && u.logs[id].sent == s.logs[id].sent + (if writes then output[..n] else [])
    && var left := if writes then output[n..] else output;
    && (id in u.table.connections <==>
          !(|| rejected
            || (writes && wrote.WritePeerClosed?)
            || (closes && left == [] && t.table.flows[id].nextResponse >= t.table.flows[id].nextRequest)))
    && (id in u.table.connections ==>
          && u.table.connections[id].output == left
          && id in u.table.flows && u.table.flows[id].closeAfterFlush == closes
          && u.table.flows[id].nextRequest == |Requests(u.logs[id])|)
  }

  lemma EventEnds(cfg: Config, s: State, e: Label, t: State, n: nat, wrote: WriteStatus)
    requires Inv(cfg, t) && Inv(cfg, Step(cfg, t, Finish(n, wrote))) && Step(cfg, t, Finish(n, wrote)) != t
    requires e.Event? && e.id in s.table.connections && e.id in s.table.flows && e.id in s.logs && e.id in t.logs
    requires t.logs[e.id].received == s.logs[e.id].received + (if IsRead(s, e) then e.received else [])
    requires t.logs[e.id].sent == s.logs[e.id].sent
    requires UnderWay(t, e.id, if IsRead(s, e) then e.result.status else ReadOk, e.writable,
                      s.table.connections[e.id].output, s.table.flows[e.id], t.logs[e.id])
    ensures EventDone(cfg, s, e, t, n, wrote, Step(cfg, t, Finish(n, wrote)))
  {
    hide Inv, Conclude;
    var id, u := e.id, Step(cfg, t, Finish(n, wrote));
    var writes := t.pc.writable && !t.pc.status.ReadProtocolError?;
    var sent := if writes then n else 0;
    var output := t.table.connections[id].output;
    assert sent <= |output|;
    ConcludeCoheres(t.table, id, t.pc.status, t.pc.writable, sent, wrote);
    hide OthersKept, CoherentBut, Coherent;
    assert output[0..] == output && output[..0] == [];
    assert writes ==> output == output[..n] + output[n..];
    if id in u.table.connections {
      StillThere(cfg, u, id);
      KeysInStep(cfg, u, id);
      TodoIsNext(cfg, u, id);
    }
  }

  lemma KeysInStep(cfg: Config, s: State, id: nat)
    requires Inv(cfg, s) && id in s.table.connections
    ensures id in s.table.flows && id in s.logs
  {
    hide ConservedOk, WakeupOk, SleepOk, QueueOk, DeliveryOk, LiveOk, EndedOk, Parse;
  }

  /** A connection event in full, in every run: however the workers interleave with it, it reads
      if it is readable and submits what it read, then writes if it is writable and the read was
      not rejected, then settles the connection. */
  lemma {:induction false} EventInFull(cfg: Config, labels: seq<Label>, e: Label, middle: seq<Label>,
                                       n: nat, wrote: WriteStatus)
    requires cfg.Valid() && Reported(cfg, Execute(cfg, labels), e)
    requires StaysUnderWay(cfg, labels + [e], middle)
    requires var t := Execute(cfg, labels + [e] + middle);
             Step(cfg, t, Finish(n, wrote)) != t
    ensures var s, t := Execute(cfg, labels), Execute(cfg, labels + [e] + middle);
            EventDone(cfg, s, e, t, n, wrote, Step(cfg, t, Finish(n, wrote)))
  {
    hide Execute, Step, Inv, EventDone, StaysUnderWay, ReadOutcome, Parse;
    var s, t := Execute(cfg, labels), Execute(cfg, labels + [e] + middle);
    EventStarts(cfg, s, e);
    Then(cfg, labels, e);
    var log := Execute(cfg, labels + [e]).logs[e.id];
    EventContinues(cfg, labels + [e], middle, e.id, if IsRead(s, e) then e.result.status else ReadOk, e.writable,
                   s.table.connections[e.id].output, s.table.flows[e.id], log);
    Reachable(cfg, labels + [e] + middle);
    Then(cfg, labels + [e] + middle, Finish(n, wrote));
    Reachable(cfg, labels + [e] + middle + [Finish(n, wrote)]);
    EventEnds(cfg, s, e, t, n, wrote);
  }

  /** And it can end in every way that `send` allows. */
  lemma EventMayEnd(cfg: Config, t: State, n: nat, wrote: WriteStatus)
    requires t.pc.Submitting? && t.pc.phase.Testing? && t.pc.todo == []
    requires t.pc.id in t.table.connections && t.pc.id in t.table.flows && t.pc.id in t.logs
    ensures Step(cfg, t, Finish(n, wrote)) != t <==>
            (t.pc.writable && !t.pc.status.ReadProtocolError? ==>
               Legal(cfg.writeBudget, t.table.connections[t.pc.id].output, n, wrote))
  {
    hide Conclude;
    var output := t.table.connections[t.pc.id].output;
    if n <= |output| {
      assert output == output[..n] + output[n..];
    }
  }

  /** An event for a connection without a flow removes the connection from everything. */
  lemma OrphanIsRemoved(cfg: Config, s: State, e: Label)
    requires s.pc.Polling? && e.Event? && e.id != 0xFFFF_FFFF_FFFF_FFFE
    requires e.id in s.table.connections && e.id !in s.table.flows && e.id in s.logs
    ensures var t := Step(cfg, s, e);
            && t.pc.Polling? && Gone(t.table, e.id) && OthersKept(s.table, t.table, e.id) && t.logs == s.logs
  {
    hide Parse, ReadOutcome;
  }

  /** A sleeping worker may wake for no reason at all. */
  lemma MayWake(cfg: Config, s: State, w: nat)
    requires w < |s.workers| && s.workers[w].Asleep?
    ensures Step(cfg, s, Spurious(w)) == s.(workers := s.workers[w := Woken])
  {}

  // ------------------------------------------------------------ the order of results

  /** What the reactor has still to look at is what was published last. */
  ghost predicate LastPublished(s: State) {
    var n := |Batch(s.pc)| + |s.stored|;
    n <= |s.published| && s.published[|s.published| - n..] == Batch(s.pc) + s.stored
  }

  lemma WorkerPublishes(cfg: Config, s: State, w: nat)
    requires LastPublished(s) && w < |s.workers|
    ensures LastPublished(WorkerStep(cfg, s, w))
  {
    hide LastPublished;
    if !s.workers[w].Computed? {
      SameOrder(s, WorkerStep(cfg, s, w));
    } else {
      var r := s.workers[w].result;
      PublishesLast(s, r);
      SameOrder(s.(stored := s.stored + [r], published := s.published + [r]), WorkerStep(cfg, s, w));
    }
  }

  lemma PublishesLast(s: State, r: WorkResult)
    requires LastPublished(s)
    ensures LastPublished(s.(stored := s.stored + [r], published := s.published + [r]))
  {
    var k := |s.published| - |Batch(s.pc)| - |s.stored|;
    assert (s.published + [r])[k..] == s.published[k..] + [r];
    Associative(Batch(s.pc), s.stored, [r]);
  }

  lemma ReactorTakesInOrder(cfg: Config, s: State, l: Label)
    requires LastPublished(s)
    ensures LastPublished(ReactorStep(cfg, s, l))
  {
    hide LastPublished, ArriveStep, EventStep, SubmitStep, CountStep, FinishStep, ShutdownStep, ProcessStep, WakeOne;
    if s.pc.Swapping? && l.Swap? {
      SwapsInOrder(s);
    } else if s.pc.Processing? && s.pc.batch != [] && l.Process? {
      ProcessesInOrder(cfg, s);
    } else {
      OthersKeepResults(cfg, s, l);
      SameOrder(s, ReactorStep(cfg, s, l));
    }
  }

  lemma SwapsInOrder(s: State)
    requires LastPublished(s) && s.pc.Swapping?
    ensures LastPublished(s.(pc := Processing(s.stored), stored := []))
  {
    assert s.stored + [] == s.stored && [] + s.stored == s.stored;
  }

  lemma ProcessesInOrder(cfg: Config, s: State)
    requires LastPublished(s) && s.pc.Processing? && s.pc.batch != []
    ensures LastPublished(ProcessStep(cfg, s))
  {
    hide ProcessStep;
    ProcessKeepsPool(cfg, s);
    var k := |s.published| - |s.pc.batch| - |s.stored|;
    assert s.published[k + 1..] == s.published[k..][1..];
    assert (s.pc.batch + s.stored)[1..] == s.pc.batch[1..] + s.stored;
  }

  lemma SameOrder(s: State, t: State)
    requires LastPublished(s) && SameResults(s, t)
    ensures LastPublished(t)
  {}

  lemma OthersKeepResults(cfg: Config, s: State, l: Label)
    requires !(s.pc.Swapping? && l.Swap?) && !(s.pc.Processing? && s.pc.batch != [] && l.Process?)
    ensures SameResults(s, ReactorStep(cfg, s, l))
  {
    hide ArriveStep, EventStep, SubmitStep, CountStep, FinishStep, ShutdownStep, ProcessStep, WakeOne;
    ReactorPublishesNothing(cfg, s, l);
  }

  lemma ReactorPublishesNothing(cfg: Config, s: State, l: Label)
    ensures s.pc.Polling? && l.Arrive? ==> SameResults(s, ArriveStep(cfg, s, l.registers))
    ensures s.pc.Polling? && l.Event? ==> SameResults(s, EventStep(cfg, s, l))
    ensures s.pc.Polling? && l.Shutdown? ==> SameResults(s, ShutdownStep(s, l.order))
    ensures s.pc.Submitting? && s.pc.id in s.table.connections && s.pc.id in s.table.flows && s.pc.id in s.logs ==>
              && (s.pc.todo != [] ==> SameResults(s, SubmitStep(cfg, s)) && SameResults(s, CountStep(s)))
              && (l.Finish? ==> SameResults(s, FinishStep(cfg, s, l.sent, l.wrote)))
  {
    hide Settle, Conclude, Accept, Parse, ReadOutcome, WriteOutcome, RemoveAll;
  }

  ghost predicate SameResults(s: State, t: State) {
    t.published == s.published && t.stored == s.stored && Batch(t.pc) == Batch(s.pc)
  }

  /** Results reach the reactor in the order in which the workers published them: those of the
      batch and of the deque are always the last ones published, in that order. */
  lemma {:induction false} ResultsKeepTheirOrder(cfg: Config, labels: seq<Label>)
    ensures LastPublished(Execute(cfg, labels))
  {
    hide ReactorStep, WorkerStep, LastPublished;
    if labels == [] {
      assert LastPublished(Initial(cfg)) by { NothingPublished(cfg); }
    } else {
      var s, l := Execute(cfg, labels[..|labels| - 1]), labels[|labels| - 1];
      ResultsKeepTheirOrder(cfg, labels[..|labels| - 1]);
      if l.Work? {
        if l.worker < |s.workers| {
          WorkerPublishes(cfg, s, l.worker);
        }
      } else {
        ReactorTakesInOrder(cfg, s, l);
        OthersPublishNothing(cfg, s, l);
      }
    }
  }

  lemma NothingPublished(cfg: Config)
    ensures LastPublished(Initial(cfg))
  {}

  lemma OthersPublishNothing(cfg: Config, s: State, l: Label)
    requires LastPublished(s)
    ensures l.Spurious? || l.NotifyAll? || l.RequestStop? ==> LastPublished(Step(cfg, s, l))
  {
    hide ReactorStep, WorkerStep;
  }
}
