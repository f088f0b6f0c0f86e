/** When the server lets a connection down: it is cut off exactly for cause. */
module Scenario {
  import opened Codec
  import opened Streams
  import opened Connections
  import opened Reactors
  import opened Servers
  import opened Invariants
  import opened Preservation
  import opened StepInvariants
  import opened Reachability
  import opened Theorems
  import opened Progress
  import opened Handling

  // ------------------------------------------------------------- cutting off

  /** The next response in order cannot be queued: it has no frame, or there is no room. */
  ghost predicate Unsendable(maxOutput: nat, c: ConnState, f: Flow) {
    f.nextResponse in f.completed && Queued(maxOutput, c.output, f.completed[f.nextResponse]).None?
  }

  lemma {:induction false} FlushStopsForCause(maxOutput: nat, c: ConnState, f: Flow)
    ensures var r := FlushLoop(maxOutput, c, f);
            !r.ok <==> Unsendable(maxOutput, r.connection, r.flow)
  {
    hide FlushLoop, Queued, EncodeAll;
    FlushLoopRun(maxOutput, c, f);
  }

  /** The causes for which a live connection is cut off: shutdown; an error event; a request
      over the in-flight limit or without room in the queue; a rejected read; a peer that is
      gone when written to; a response that cannot be queued. */
  ghost predicate Cause(cfg: Config, s: State, l: Label, id: nat)
    requires id in s.table.connections && id in s.table.flows && id in s.logs
  {
    var c, f := s.table.connections[id], s.table.flows[id];
    match s.pc
    case Polling =>
      || (l.Shutdown? && RemoveAll(s.table, l.order).flows == map[])
      || (l.Event? && l.id == id && l.error && id != 0xFFFF_FFFF_FFFF_FFFE)
    case Submitting(subject, todo, phase, status, writable) =>
      && subject == id && phase.Testing?
      && (|| (l.Submit? && todo != []
              && (|| f.nextRequest - f.nextResponse >= cfg.maxInFlight
                  || s.queueClosed || |s.queue| >= cfg.queueCapacity))
          || (l.Finish? && todo == []
              && (|| status.ReadProtocolError?
                  || (writable && l.wrote.WritePeerClosed? && l.sent <= |c.output|
                      && WriteOutcome(cfg.writeBudget, c.output, c.output[..l.sent], l.wrote, c.output[l.sent..])))))
    case Processing(batch) =>
      && l.Process? && batch != [] && batch[0].id == id
      && var o := CompleteOutcome(cfg.maxOutput, c, f, s.logs[id], batch[0]);
         Unsendable(cfg.maxOutput, o.connection, o.flow)
    case _ => false
  }

  lemma SettleAborts(cfg: Config, s: State, id: nat, c: ConnState, f: Flow, log: Log, abort: bool, pc: Pc)
    ensures Record(s, id, log, Settle(s.table, id, c, f, abort), pc).logs[id].ending.Aborted? <==> abort
  {}

  lemma FinishAborts(cfg: Config, s: State, sent: nat, wrote: WriteStatus)
    requires s.pc.Submitting? && s.pc.id in s.table.connections && s.pc.id in s.table.flows && s.pc.id in s.logs
    requires s.logs[s.pc.id].ending.Open?
    ensures s.pc.id in FinishStep(cfg, s, sent, wrote).logs
    ensures var c := s.table.connections[s.pc.id];
            FinishStep(cfg, s, sent, wrote).logs[s.pc.id].ending.Aborted? <==>
            (|| s.pc.status.ReadProtocolError?
             || (s.pc.writable && wrote.WritePeerClosed? && sent <= |c.output|
                 && WriteOutcome(cfg.writeBudget, c.output, c.output[..sent], wrote, c.output[sent..])))
  {
    hide Put, Remove, UpdatedInterest, WriteOutcome;
  }

  lemma ProcessAborts(cfg: Config, s: State)
    requires s.pc.Processing? && s.pc.batch != []
    requires var id := s.pc.batch[0].id;
             id in s.table.connections && id in s.table.flows && id in s.logs && s.logs[id].ending.Open?
    ensures s.pc.batch[0].id in ProcessStep(cfg, s).logs
    ensures var r := s.pc.batch[0];
            var o := CompleteOutcome(cfg.maxOutput, s.table.connections[r.id], s.table.flows[r.id], s.logs[r.id], r);
            ProcessStep(cfg, s).logs[r.id].ending.Aborted? <==> Unsendable(cfg.maxOutput, o.connection, o.flow)
  {
    hide Settle, FlushLoop, Queued, Complete;
    var r := s.pc.batch[0];
    CompleteSettles(cfg.maxOutput, s.table, s.logs[r.id], r);
    FlushStopsForCause(cfg.maxOutput, s.table.connections[r.id], WithResult(s.table.flows[r.id], r));
    var o := CompleteOutcome(cfg.maxOutput, s.table.connections[r.id], s.table.flows[r.id], s.logs[r.id], r);
    SettleAborts(cfg, s, r.id, o.connection, o.flow, s.logs[r.id], o.abort, Processing(s.pc.batch[1..]));
  }

  lemma EventAborts(cfg: Config, s: State, e: Label)
    requires s.pc.Polling? && e.Event? && e.id in s.table.connections && e.id in s.table.flows && e.id in s.logs
    requires s.logs[e.id].ending.Open?
    ensures e.id in EventStep(cfg, s, e).logs
    ensures EventStep(cfg, s, e).logs[e.id].ending.Aborted? <==> e.error && e.id != SHUTDOWN_SIGNAL_KEY
  {
    hide Settle, Parse, ReadOutcome;
    SettleAborts(cfg, s, e.id, s.table.connections[e.id], s.table.flows[e.id], s.logs[e.id], true, Polling);
  }

  lemma SubmitAborts(cfg: Config, s: State)
    requires s.pc.Submitting? && s.pc.id in s.table.connections && s.pc.id in s.table.flows && s.pc.id in s.logs
    requires s.pc.todo != [] && s.logs[s.pc.id].ending.Open?
    ensures s.pc.id in SubmitStep(cfg, s).logs
    ensures var f := s.table.flows[s.pc.id];
            SubmitStep(cfg, s).logs[s.pc.id].ending.Aborted? <==>
            (f.nextRequest - f.nextResponse >= cfg.maxInFlight || s.queueClosed || |s.queue| >= cfg.queueCapacity)
  {
    hide Settle;
    SettleAborts(cfg, s, s.pc.id, s.table.connections[s.pc.id], s.table.flows[s.pc.id], s.logs[s.pc.id], true, Polling);
  }

  lemma SubjectCutOff(cfg: Config, s: State, l: Label, id: nat)
    requires Subject(s, l) == Some(id)
    requires id in s.table.connections && id in s.table.flows && id in s.logs && s.logs[id].ending.Open?
    ensures id in Step(cfg, s, l).logs
    ensures Step(cfg, s, l).logs[id].ending.Aborted? <==> Cause(cfg, s, l, id)
  {
    hide Step, Cause;
    if s.pc.Submitting? {
      SubmittingCutOff(cfg, s, l, id);
    } else {
      EventCutOff(cfg, s, l, id);
    }
  }

  lemma EventCutOff(cfg: Config, s: State, l: Label, id: nat)
    requires Subject(s, l) == Some(id) && !s.pc.Submitting?
    requires id in s.table.connections && id in s.table.flows && id in s.logs && s.logs[id].ending.Open?
    ensures id in Step(cfg, s, l).logs
    ensures Step(cfg, s, l).logs[id].ending.Aborted? <==> Cause(cfg, s, l, id)
  {
    hide EventStep, SubmitStep, CountStep, FinishStep, ProcessStep, ArriveStep, ShutdownStep, CompleteOutcome,
         WriteOutcome, Unsendable;
    if s.pc.Polling? {
      EventAborts(cfg, s, l);
    } else {
      ProcessAborts(cfg, s);
      ProcessLogs(cfg, s);
    }
  }

  lemma SubmittingCutOff(cfg: Config, s: State, l: Label, id: nat)
    requires s.pc.Submitting? && s.pc.id == id
    requires id in s.table.connections && id in s.table.flows && id in s.logs && s.logs[id].ending.Open?
    ensures id in Step(cfg, s, l).logs
    ensures Step(cfg, s, l).logs[id].ending.Aborted? <==> Cause(cfg, s, l, id)
  {
    hide EventStep, SubmitStep, FinishStep, ProcessStep, ArriveStep, ShutdownStep, WriteOutcome;
    if l.Submit? && s.pc.todo != [] {
      SubmitAborts(cfg, s);
    } else if l.Finish? {
      FinishAborts(cfg, s, l.sent, l.wrote);
    }
  }

  /** A live connection is cut off by a step exactly if there is cause. */
  lemma {:induction false} CutOffForCause(cfg: Config, labels: seq<Label>, l: Label, id: nat)
    requires cfg.Valid()
    requires id in Execute(cfg, labels).table.flows
    ensures var s, s' := Execute(cfg, labels), Step(cfg, Execute(cfg, labels), l);
            && id in s.table.connections && id in s.logs && id in s'.logs
            && (s'.logs[id].ending.Aborted? <==> Cause(cfg, s, l, id))
  {
    hide Inv, Execute, Step, Cause;
    Reachable(cfg, labels);
    var s := Execute(cfg, labels);
    KnownId(cfg, s, id);
    OpenLog(cfg, s, id);
    if Subject(s, l) == Some(id) {
      SubjectCutOff(cfg, s, l, id);
    } else if s.pc.Polling? && l.Shutdown? {
      ShutdownCutsOff(cfg, s, l, id);
    } else {
      Isolation(cfg, s, l, id);
      NoCause(cfg, s, l, id);
    }
  }

  lemma OpenLog(cfg: Config, s: State, id: nat)
    requires Inv(cfg, s) && id in s.table.flows
    ensures id in s.logs && s.logs[id].ending.Open?
  {
    hide ConnectionsOk, ConservedOk, WakeupOk, SleepOk, QueueOk, DeliveryOk, LiveOk, Parse;
    LiveFacts(cfg, s.table, s.logs, s.pc, id);
  }

  lemma ShutdownCutsOff(cfg: Config, s: State, l: Label, id: nat)
    requires s.pc.Polling? && l.Shutdown?
    requires id in s.table.connections && id in s.table.flows && id in s.logs && s.logs[id].ending.Open?
    ensures id in Step(cfg, s, l).logs
    ensures Step(cfg, s, l).logs[id].ending.Aborted? <==> Cause(cfg, s, l, id)
  {}

  lemma NoCause(cfg: Config, s: State, l: Label, id: nat)
    requires id in s.table.connections && id in s.table.flows && id in s.logs
    requires Subject(s, l) != Some(id) && !(s.pc.Polling? && l.Shutdown?)
    ensures !Cause(cfg, s, l, id)
  {}

  lemma ProcessLogs(cfg: Config, s: State)
    requires s.pc.Processing? && s.pc.batch != []
    ensures forall id :: id in s.logs ==> id in ProcessStep(cfg, s).logs
  {
    hide Complete;
  }

  // ------------------------------------------------------------------- responses

  /** With the default handler every response on its way has a frame, so queueing one can
      fail only for want of room. */
  lemma {:induction false} ResponsesHaveFrames(cfg: Config, labels: seq<Label>, r: WorkResult, pending: seq<Byte>)
    requires cfg.Valid() && cfg.respond == HandleRequest
    requires r in Outstanding(cfg, Execute(cfg, labels))
    ensures Encodable(r.response)
    ensures Queued(cfg.maxOutput, pending, r.response).None? <==> |pending| + |Frame(r.response)| > cfg.maxOutput
    ensures cfg.maxOutput >= DEFAULT_BUFFER_LIMIT ==> Queued(cfg.maxOutput, [], r.response).Some?
  {
    hide Execute, Outstanding, ConnectionsOk, WakeupOk, SleepOk, QueueOk, DeliveryOk, AccountedOk, Parse,
         HandleRequest, Header;
    Reachable(cfg, labels);
    var s := Execute(cfg, labels);
    var log := s.logs[r.id];
    LogFacts(cfg, s.table, s.logs, s.pc, r.id);
    EncodeAllParse(log.received);
    var request := Requests(log)[r.sequence];
    assert Encodable(request);
    ResponsesAreEncodable(request, m => None);
  }
}
