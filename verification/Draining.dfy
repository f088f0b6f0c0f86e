/** No half-closed connection is stuck: under every schedule of the server's own steps and of
    writes to a peer that reads, it is sent everything and let go. */
module Draining {
  import opened Codec
  import opened Streams
  import opened Connections
  import opened Reactors
  import opened Servers
  import opened Invariants
  import opened Preservation
  import opened Reachability
  import opened Theorems
  import opened Progress
  import opened Quiescence
  import opened Identity
  import opened StepInvariants
  import opened Scenario

  /** Once half-closed, a connection stays half-closed for as long as it lives. */
  lemma {:induction false} HalfCloseStays(cfg: Config, labels: seq<Label>, more: seq<Label>, id: nat)
    requires cfg.Valid()
    requires id in Execute(cfg, labels).table.flows && Execute(cfg, labels).table.flows[id].closeAfterFlush
    ensures var s := Execute(cfg, labels + more);
            && id in s.logs
            && (if id in s.table.flows then s.table.flows[id].closeAfterFlush else !s.logs[id].ending.Open?)
  {
    hide Inv, Step;
    if more == [] {
      assert labels + more == labels;
      Reachable(cfg, labels);
      KnownId(cfg, Execute(cfg, labels), id);
    } else {
      var init, l := labels + more[..|more| - 1], more[|more| - 1];
      HalfCloseStays(cfg, labels, more[..|more| - 1], id);
      assert (labels + more)[..|labels + more| - 1] == init;
      if id in Execute(cfg, init).table.flows {
        HalfCloseDrains(cfg, init, l, id);
        Reachable(cfg, labels + more);
        if id in Execute(cfg, labels + more).table.flows {
          KnownId(cfg, Execute(cfg, labels + more), id);
        }
      } else {
        EndedIsFinal(cfg, init, [l], id);
        assert init + [l] == labels + more;
      }
    }
  }

  /** Nothing is left of the connection but its pending output. */
  ghost predicate Flushing(s: State, id: nat) {
    && s.pc.Polling? && id != SHUTDOWN_SIGNAL_KEY
    && id in s.table.connections && id in s.table.flows && id in s.logs
    && s.table.flows[id].closeAfterFlush && s.table.flows[id].nextResponse == s.table.flows[id].nextRequest
  }

  /** The peer takes as much as one write offers. */
  lemma WritesSome(cfg: Config, s: State, id: nat)
    requires cfg.Valid() && Flushing(s, id) && s.table.connections[id].output != []
    ensures var size := |s.table.connections[id].output|;
            var n := if size <= cfg.writeBudget then size else cfg.writeBudget;
            var t := Step(cfg, Step(cfg, s, Writable(id)), Finish(n, WriteOk));
            if n == size then
              t.pc.Polling? && id !in t.table.flows && id in t.logs && t.logs[id].ending.Drained?
            else
              Flushing(t, id) && |t.table.connections[id].output| == size - n
  {
    var c := s.table.connections[id];
    var n := if |c.output| <= cfg.writeBudget then |c.output| else cfg.writeBudget;
    assert c.output == c.output[..n] + c.output[n..];
    var a := Step(cfg, s, Writable(id));
    assert a == s.(pc := Submitting(id, [], Testing, ReadOk, true));
  }

  lemma StillPending(cfg: Config, s: State, id: nat)
    requires Inv(cfg, s) && Flushing(s, id)
    ensures s.table.connections[id].output != []
  {
    hide ConnectionsOk, ConservedOk, WakeupOk, SleepOk, QueueOk, DeliveryOk, ConnOk;
    LiveFacts(cfg, s.table, s.logs, s.pc, id);
  }

  lemma {:induction false} WritesOut(cfg: Config, labels: seq<Label>, id: nat) returns (more: seq<Label>)
    requires cfg.Valid() && Flushing(Execute(cfg, labels), id)
    ensures forall i :: 0 <= i < |more| ==> more[i] == Writable(id) || more[i].Finish?
    ensures var s := Execute(cfg, labels + more);
            id !in s.table.flows && id in s.logs && s.logs[id].ending.Drained?
    decreases |Execute(cfg, labels).table.connections[id].output|
  {
    hide Inv, Step;
    Reachable(cfg, labels);
    StillPending(cfg, Execute(cfg, labels), id);
    WritesSome(cfg, Execute(cfg, labels), id);
    var size := |Execute(cfg, labels).table.connections[id].output|;
    var n := if size <= cfg.writeBudget then size else cfg.writeBudget;
    Then(cfg, labels, Writable(id));
    Then(cfg, labels + [Writable(id)], Finish(n, WriteOk));
    var next := labels + [Writable(id)] + [Finish(n, WriteOk)];
    more := [Writable(id), Finish(n, WriteOk)];
    if n == size {
      assert labels + more == next;
    } else {
      var rest := WritesOut(cfg, next, id);
      more := more + rest;
      assert labels + more == next + rest;
    }
  }

  /** From every reachable state of a running server, a half-closed connection can be brought
      to its end without anything more being read. Its own threads bring the server to rest;
      a connection that is still there then needs only its pending output taken, and is let
      go when it has been sent the responses to all it asked. */
  lemma {:induction false} HalfClosedCanFinish(cfg: Config, labels: seq<Label>, id: nat)
    returns (rest: seq<Label>, writes: seq<Label>)
    requires cfg.Valid() && Running(Execute(cfg, labels))
    requires id in Execute(cfg, labels).table.flows && Execute(cfg, labels).table.flows[id].closeAfterFlush
    ensures forall i :: 0 <= i < |rest| ==> Internal(rest[i])
    ensures forall i :: 0 <= i < |writes| ==> writes[i] == Writable(id) || writes[i].Finish?
    ensures var quiet, s := Execute(cfg, labels + rest), Execute(cfg, labels + rest + writes);
            && id !in s.table.flows && id in s.logs && !s.logs[id].ending.Open?
            && (id in quiet.table.flows ==>
                  && s.logs[id].ending.Drained?
                  && s.logs[id].sent == ResponseStream(cfg.respond, Parse(s.logs[id].received).messages))
  {
    hide Inv, Step, ResponseStream, Parse, Execute, Flushing;
    rest := CanAlwaysQuiesce(cfg, labels);
    HalfCloseStays(cfg, labels, rest, id);
    if id in Execute(cfg, labels + rest).table.flows {
      QuietFlushing(cfg, labels + rest, id);
      writes := WritesOut(cfg, labels + rest, id);
      SentIsPrefixOfResponses(cfg, labels + rest + writes, id);
    } else {
      writes := [];
      assert labels + rest + writes == labels + rest;
    }
  }

  lemma QuietFlushing(cfg: Config, labels: seq<Label>, id: nat)
    requires cfg.Valid() && Quiet(Execute(cfg, labels))
    requires id in Execute(cfg, labels).table.flows && Execute(cfg, labels).table.flows[id].closeAfterFlush
    ensures Flushing(Execute(cfg, labels), id)
  {
    hide Execute, Parse, ResponseStream, Outstanding, ConnectionsOk, AuthenticOk, AccountedOk, TableOk, LogsOk,
         SleepOk, QueueOk, DeliveryOk;
    Reachable(cfg, labels);
    LastIdIsNeverServed(cfg, labels, id);
    var s := Execute(cfg, labels);
    LiveFacts(cfg, s.table, s.logs, s.pc, id);
    NothingOutstanding(cfg, s);
    NothingAwaited(cfg, s.table.flows[id], s.logs[id], id);
  }

  // ------------------------------------------------------------------ every schedule

  /** The bytes that a live connection has still to be sent. */
  function BytesLeft(cfg: Config, s: State, id: nat): (n: nat) {
    if id !in s.table.flows || id !in s.logs then 0
    else
      var all, sent := |ResponseStream(cfg.respond, Requests(s.logs[id]))|, |s.logs[id].sent|;
      if sent <= all then all - sent else 0
  }

  /** The event under way will write to the connection, and there is something to write. */
  predicate WriteDue(s: State, id: nat) {
    && s.pc.Submitting? && s.pc.id == id && s.pc.writable && !s.pc.status.ReadProtocolError?
    && id in s.table.connections && s.table.connections[id].output != []
  }

  /** A step of the server's own threads, or an event that the connection can be written to,
      which comes only while there is interest in it. The peer reads: a write that has bytes
      to send gets some of them accepted. */
  ghost predicate DrainStep(cfg: Config, s: State, l: Label, id: nat) {
    || (Effective(cfg, s, l) && (l.Finish? && WriteDue(s, id) ==> l.sent > 0))
    || (l == Writable(id) && s.pc.Polling? && id in s.table.epoll && s.table.epoll[id].write)
  }

  /** A bound on such steps. A write that is due counts as one byte less. */
  function DrainWeight(cfg: Config, s: State, id: nat): int {
    Weight(s) + 2 * (BytesLeft(cfg, s, id) - if WriteDue(s, id) then 1 else 0)
  }

  /** What is pending is part of what is left. */
  lemma PendingIsLeft(cfg: Config, s: State, id: nat)
    requires Inv(cfg, s) && id in s.table.flows
    ensures id in s.table.connections && id in s.logs
    ensures |s.logs[id].sent| + |s.table.connections[id].output|
         <= |ResponseStream(cfg.respond, Requests(s.logs[id]))|
    ensures BytesLeft(cfg, s, id) >= |s.table.connections[id].output|
  {
    hide ConnectionsOk, ConservedOk, WakeupOk, SleepOk, QueueOk, DeliveryOk, TableOk, LogsOk, ResponseStream;
    LiveFacts(cfg, s.table, s.logs, s.pc, id);
    var log, f := s.logs[id], s.table.flows[id];
    ResponseStreamMonotone(cfg.respond, Requests(log)[..f.nextResponse], Requests(log));
  }

  lemma DrainWeightIsNatural(cfg: Config, s: State, id: nat)
    requires Inv(cfg, s)
    ensures 0 <= DrainWeight(cfg, s, id) <= Weight(s) + 2 * BytesLeft(cfg, s, id)
  {
    hide Inv, BytesLeft, Weight;
    if WriteDue(s, id) {
      KeysOf(cfg, s);
      PendingIsLeft(cfg, s, id);
    }
  }

  /** Steps other than reads and writes leave the record of the streams alone. */
  lemma StreamsRest(cfg: Config, s: State, l: Label, id: nat)
    requires Internal(l) && !l.Finish? && id in s.logs
    ensures id in Step(cfg, s, l).logs
    ensures Step(cfg, s, l).logs[id] == s.logs[id].(ending := Step(cfg, s, l).logs[id].ending)
  {
    hide ArriveStep, EventStep, SubmitStep, CountStep, FinishStep, ProcessStep, ShutdownStep, WorkerStep, WakeOne;
    if l.Work? {
      if l.worker < |s.workers| {
        WorkerKeepsTable(cfg, s, l.worker);
      }
    } else if s.pc.Processing? && s.pc.batch != [] {
      ProcessStreams(cfg, s, id);
    } else if s.pc.Submitting? && s.pc.todo != []
              && s.pc.id in s.table.connections && s.pc.id in s.table.flows && s.pc.id in s.logs {
      SubmitStreams(cfg, s, id);
    }
  }

  lemma WorkerKeepsTable(cfg: Config, s: State, w: nat)
    requires w < |s.workers|
    ensures WorkerStep(cfg, s, w).logs == s.logs && WorkerStep(cfg, s, w).table == s.table
  {}

  lemma ProcessStreams(cfg: Config, s: State, id: nat)
    requires s.pc.Processing? && s.pc.batch != [] && id in s.logs
    ensures var t := ProcessStep(cfg, s);
            id in t.logs && t.logs[id] == s.logs[id].(ending := t.logs[id].ending)
  {
    hide Complete;
  }

  lemma SubmitStreams(cfg: Config, s: State, id: nat)
    requires s.pc.Submitting? && s.pc.todo != [] && id in s.logs
    requires s.pc.id in s.table.connections && s.pc.id in s.table.flows && s.pc.id in s.logs
    ensures CountStep(s).logs == s.logs
    ensures var t := SubmitStep(cfg, s);
            id in t.logs && t.logs[id] == s.logs[id].(ending := t.logs[id].ending)
  {
    hide Settle;
  }

  /** A wake of the write event. */
  lemma WritableLightens(cfg: Config, s: State, id: nat)
    requires Inv(cfg, s) && Running(s) && id != SHUTDOWN_SIGNAL_KEY
    requires s.pc.Polling? && id in s.table.epoll && s.table.epoll[id].write
    ensures var t := Step(cfg, s, Writable(id));
            Running(t) && DrainWeight(cfg, t, id) < DrainWeight(cfg, s, id)
  {
    hide Inv, Concat, ResponseStream;
    WriteWanted(cfg, s, id);
    assert Step(cfg, s, Writable(id)) == s.(pc := Submitting(id, [], Testing, ReadOk, true));
  }

  lemma WriteWanted(cfg: Config, s: State, id: nat)
    requires Inv(cfg, s) && id in s.table.epoll && s.table.epoll[id].write
    ensures id in s.table.connections && id in s.table.flows && id in s.logs && s.table.connections[id].output != []
  {
    hide ConservedOk, WakeupOk, SleepOk, QueueOk, DeliveryOk, LiveOk, EndedOk, Parse;
    assert InterestOk(s.table, id);
  }

  /** The end of an event of the connection itself. */
  lemma OwnFinish(cfg: Config, s: State, l: Label, id: nat)
    requires Inv(cfg, s) && s.pc.Submitting? && s.pc.id == id && l.Finish? && Step(cfg, s, l) != s
    requires WriteDue(s, id) ==> l.sent > 0
    ensures var t := Step(cfg, s, l);
            && t.pc.Polling? && id in s.logs && id in t.logs && t.logs[id].parsed == s.logs[id].parsed
            && |t.logs[id].sent| >= |s.logs[id].sent| + if WriteDue(s, id) then 1 else 0
  {
    hide ConnectionsOk, ConservedOk, WakeupOk, SleepOk, QueueOk, DeliveryOk, TableOk, LogsOk, Settle, Conclude,
         WriteOutcome;
    KeysAgree(cfg, s);
  }

  /** What a step leaves to be sent is not more than before, the write that is due included. */
  lemma LeftFalls(cfg: Config, s: State, l: Label, id: nat)
    requires Inv(cfg, s) && Inv(cfg, Step(cfg, s, l)) && Running(s)
    requires id in s.table.flows && s.table.flows[id].closeAfterFlush
    requires Effective(cfg, s, l) && (l.Finish? && WriteDue(s, id) ==> l.sent > 0)
    ensures var t := Step(cfg, s, l);
            BytesLeft(cfg, t, id) - (if WriteDue(t, id) then 1 else 0)
            <= BytesLeft(cfg, s, id) - (if WriteDue(s, id) then 1 else 0)
  {
    hide Inv, Step, ResponseStream;
    var t := Step(cfg, s, l);
    KnownId(cfg, s, id);
    PendingIsLeft(cfg, s, id);
    KeysOf(cfg, t);
    SubmittingSince(cfg, s, l);
    if id in t.table.flows {
      PendingIsLeft(cfg, t, id);
      if l.Finish? && s.pc.Submitting? && s.pc.id == id {
        OwnFinish(cfg, s, l, id);
      } else {
        OtherStep(cfg, s, l, id);
      }
    }
  }

  /** A step that is not the end of an event of the connection. */
  lemma OtherStep(cfg: Config, s: State, l: Label, id: nat)
    requires Inv(cfg, s) && Running(s) && id in s.table.flows && s.table.flows[id].closeAfterFlush
    requires Effective(cfg, s, l) && !(l.Finish? && s.pc.Submitting? && s.pc.id == id)
    ensures var t := Step(cfg, s, l);
            && id in s.logs && id in t.logs
            && t.logs[id].parsed == s.logs[id].parsed && t.logs[id].sent == s.logs[id].sent
            && (WriteDue(t, id) <==> WriteDue(s, id))
  {
    hide Inv, Step;
    KnownId(cfg, s, id);
    SubmittingSince(cfg, s, l);
    if l.Finish? {
      FinishesToPoll(cfg, s, l);
      Isolation(cfg, s, l, id);
    } else {
      StreamsRest(cfg, s, l, id);
      if s.pc.Submitting? && s.pc.id == id {
        SubmittingRests(cfg, s, l);
      }
    }
  }

  lemma FinishesToPoll(cfg: Config, s: State, l: Label)
    requires l.Finish? && Step(cfg, s, l) != s
    ensures s.pc.Submitting? && Step(cfg, s, l).pc.Polling?
  {
    hide Conclude, WriteOutcome;
  }

  /** With nothing to submit, the reactor waits for the end of the event. */
  lemma SubmittingRests(cfg: Config, s: State, l: Label)
    requires s.pc.Submitting? && s.pc.todo == [] && s.pc.phase.Testing? && Internal(l) && !l.Finish?
    ensures Step(cfg, s, l).pc == s.pc && Step(cfg, s, l).table == s.table
  {
    hide FinishStep, SubmitStep, CountStep;
  }

  /** Every step of such a schedule lowers its weight. */
  lemma DrainStepLightens(cfg: Config, s: State, l: Label, id: nat)
    requires Inv(cfg, s) && Inv(cfg, Step(cfg, s, l)) && Running(s) && DrainStep(cfg, s, l, id)
    requires id in s.table.flows ==> s.table.flows[id].closeAfterFlush && id != SHUTDOWN_SIGNAL_KEY
    ensures Running(Step(cfg, s, l)) && DrainWeight(cfg, Step(cfg, s, l), id) < DrainWeight(cfg, s, id)
  {
    hide Inv, Step, Weight, Effective, BytesLeft, WriteDue;
    if !Effective(cfg, s, l) {
      WriteWanted(cfg, s, id);
      WritableLightens(cfg, s, id);
    } else {
      EveryStepLightens(cfg, s, l);
      if id in s.table.flows {
        LeftFalls(cfg, s, l, id);
      } else {
        GoneIsLight(cfg, s, l, id);
      }
    }
  }

  lemma GoneIsLight(cfg: Config, s: State, l: Label, id: nat)
    requires Inv(cfg, s) && Inv(cfg, Step(cfg, s, l)) && Effective(cfg, s, l) && id !in s.table.flows
    ensures BytesLeft(cfg, Step(cfg, s, l), id) == 0 && !WriteDue(Step(cfg, s, l), id)
    ensures BytesLeft(cfg, s, id) == 0 && !WriteDue(s, id)
  {
    hide Inv, Step, ResponseStream;
    NothingNew(cfg, s, l, id);
    KeysOf(cfg, s);
    KeysOf(cfg, Step(cfg, s, l));
  }

  /** Each of the steps `more` after `labels` is one with a peer that reads. */
  ghost predicate DrainSchedule(cfg: Config, labels: seq<Label>, more: seq<Label>, id: nat) {
    forall i :: 0 <= i < |more| ==> DrainStep(cfg, Execute(cfg, labels + more[..i]), more[i], id)
  }

  lemma {:induction false} DrainScheduleLightens(cfg: Config, labels: seq<Label>, more: seq<Label>, id: nat)
    requires cfg.Valid() && Running(Execute(cfg, labels)) && DrainSchedule(cfg, labels, more, id)
    requires id in Execute(cfg, labels).table.flows && Execute(cfg, labels).table.flows[id].closeAfterFlush
    ensures var s := Execute(cfg, labels + more);
            Running(s) && |more| + DrainWeight(cfg, s, id) <= DrainWeight(cfg, Execute(cfg, labels), id)
  {
    hide Inv, Execute, Step, DrainWeight, DrainStep, Running;
    if more == [] {
      assert labels + more == labels;
    } else {
      var n := |more| - 1;
      var init := labels + more[..n];
      assert forall i :: 0 <= i < n ==> more[..n][..i] == more[..i];
      DrainScheduleLightens(cfg, labels, more[..n], id);
      Then(cfg, init, more[n]);
      assert init + [more[n]] == labels + more;
      Reachable(cfg, init);
      Reachable(cfg, labels + more);
      HalfCloseStays(cfg, labels, more[..n], id);
      if id in Execute(cfg, init).table.flows {
        LastIdIsNeverServed(cfg, init, id);
      }
      DrainStepLightens(cfg, Execute(cfg, init), more[n], id);
    }
  }

  /** While the connection is there, some step can be taken. */
  lemma SomethingDrains(cfg: Config, labels: seq<Label>, id: nat) returns (l: Label)
    requires cfg.Valid() && Running(Execute(cfg, labels))
    requires id in Execute(cfg, labels).table.flows && Execute(cfg, labels).table.flows[id].closeAfterFlush
    ensures DrainStep(cfg, Execute(cfg, labels), l, id)
  {
    hide Inv, Execute, Effective, Flushing, Running, Quiet;
    var s := Execute(cfg, labels);
    Reachable(cfg, labels);
    KnownId(cfg, s, id);
    if Quiet(s) {
      QuietFlushing(cfg, labels, id);
      StillPending(cfg, s, id);
      WriteInterest(cfg, s, id);
      l := Writable(id);
    } else if WriteDue(s, id) {
      l := WriteMoves(cfg, s, id);
    } else {
      l := SomeoneMoves(cfg, s);
    }
  }

  lemma WriteInterest(cfg: Config, s: State, id: nat)
    requires Inv(cfg, s) && Flushing(s, id) && s.table.connections[id].output != []
    ensures s.pc.Polling? && id in s.table.epoll && s.table.epoll[id].write
  {
    hide ConservedOk, WakeupOk, SleepOk, QueueOk, DeliveryOk, LiveOk, EndedOk, Parse;
    assert InterestOk(s.table, id);
  }

  lemma WriteMoves(cfg: Config, s: State, id: nat) returns (l: Label)
    requires cfg.Valid() && WriteDue(s, id) && s.pc.todo == [] && s.pc.phase.Testing?
    requires id in s.table.flows && id in s.logs
    ensures l.Finish? && l.sent > 0 && Effective(cfg, s, l)
  {
    hide Conclude;
    var output := s.table.connections[id].output;
    var n := if |output| <= cfg.writeBudget then |output| else cfg.writeBudget;
    assert output == output[..n] + output[n..];
    l := Finish(n, WriteOk);
    assert Step(cfg, s, l).pc.Polling?;
  }

  /** Half-close ends under every schedule. However the steps of the server's threads and the
      writes to a peer that reads are scheduled, they are at most as many as the weight of the
      state and twice the bytes still to be sent; and where none is left the connection is
      gone, with all its responses sent if it was let go. */
  lemma {:induction false} EveryDrainEnds(cfg: Config, labels: seq<Label>, more: seq<Label>, id: nat)
    requires cfg.Valid() && Running(Execute(cfg, labels)) && DrainSchedule(cfg, labels, more, id)
    requires id in Execute(cfg, labels).table.flows && Execute(cfg, labels).table.flows[id].closeAfterFlush
    ensures |more| <= Weight(Execute(cfg, labels)) + 2 * BytesLeft(cfg, Execute(cfg, labels), id)
    ensures var s := Execute(cfg, labels + more);
            (forall l :: !DrainStep(cfg, s, l, id)) ==>
              && id !in s.table.flows && id in s.logs && !s.logs[id].ending.Open?
              && (s.logs[id].ending.Drained? ==>
                    s.logs[id].sent == ResponseStream(cfg.respond, Parse(s.logs[id].received).messages))
  {
    hide Inv, Execute, DrainWeight, DrainStep, DrainSchedule, Running, Weight, BytesLeft, ResponseStream, Parse;
    DrainScheduleLightens(cfg, labels, more, id);
    Reachable(cfg, labels);
    Reachable(cfg, labels + more);
    DrainWeightIsNatural(cfg, Execute(cfg, labels), id);
    DrainWeightIsNatural(cfg, Execute(cfg, labels + more), id);
    HalfCloseStays(cfg, labels, more, id);
    if id in Execute(cfg, labels + more).table.flows {
      var l := SomethingDrains(cfg, labels + more, id);
    } else {
      SentIsPrefixOfResponses(cfg, labels + more, id);
    }
  }

  // ------------------------------------------------------------- and is sent everything

  /** Every response of the connection has a frame, and what is left fits in its buffer. */
  ghost predicate Deliverable(cfg: Config, s: State, id: nat) {
    && id in s.logs
    && (forall k :: 0 <= k < |Requests(s.logs[id])| ==> Encodable(cfg.respond(Requests(s.logs[id])[k])))
    && BytesLeft(cfg, s, id) <= cfg.maxOutput
  }

  /** Room for all that is left is room for the next response. */
  lemma RoomForNext(cfg: Config, c: ConnState, f: Flow, log: Log)
    requires StreamOk(cfg, c, f, log) && f.nextResponse < |Requests(log)|
    requires Encodable(cfg.respond(Requests(log)[f.nextResponse]))
    requires |ResponseStream(cfg.respond, Requests(log))| - |log.sent| <= cfg.maxOutput
    ensures Queued(cfg.maxOutput, c.output, cfg.respond(Requests(log)[f.nextResponse])).Some?
  {
    hide ResponseStream, Header;
    var k, requests := f.nextResponse, Requests(log);
    assert requests[..k + 1] == requests[..k] + [requests[k]];
    ResponseStreamSnoc(cfg.respond, requests[..k], requests[k]);
    ResponseStreamMonotone(cfg.respond, requests[..k + 1], requests);
  }

  /** A result never finds the connection without room for what is deliverable. */
  lemma ResultIsQueued(cfg: Config, s: State, id: nat)
    requires Inv(cfg, s) && s.pc.Processing? && s.pc.batch != [] && s.pc.batch[0].id == id
    requires id in s.table.flows && id in s.table.connections && Deliverable(cfg, s, id)
    ensures var o := CompleteOutcome(cfg.maxOutput, s.table.connections[id], s.table.flows[id], s.logs[id],
                                     s.pc.batch[0]);
            !Unsendable(cfg.maxOutput, o.connection, o.flow)
  {
    hide ConnectionsOk, ConservedOk, WakeupOk, SleepOk, QueueOk, DeliveryOk, TableOk, LogsOk, CompleteOutcome,
         ResponseStream, Queued, ConnOk;
    var r, c, f, log := s.pc.batch[0], s.table.connections[id], s.table.flows[id], s.logs[id];
    LiveFacts(cfg, s.table, s.logs, s.pc, id);
    PendingIsLeft(cfg, s, id);
    Awaits(cfg, s, id);
    CompletedConn(cfg, c, f, log, r);
    var o := CompleteOutcome(cfg.maxOutput, c, f, log, r);
    if o.flow.nextResponse in o.flow.completed {
      RightInMap(cfg, c, f, log, r, o.flow);
      RoomForNext(cfg, o.connection, o.flow, log);
    }
  }

  /** The result at the head of the batch is one that its connection awaits. */
  lemma Awaits(cfg: Config, s: State, id: nat)
    requires Inv(cfg, s) && s.pc.Processing? && s.pc.batch != [] && s.pc.batch[0].id == id && id in s.table.flows
    ensures var r := s.pc.batch[0];
            && id in s.logs && s.table.flows[id].nextResponse <= r.sequence < s.table.flows[id].nextRequest
            && r.sequence < |Requests(s.logs[id])| && r.response == cfg.respond(Requests(s.logs[id])[r.sequence])
  {
    hide ConnectionsOk, WakeupOk, SleepOk, QueueOk, DeliveryOk, AuthenticOk, AccountedOk, Hands, Results;
    var r := s.pc.batch[0];
    assert r in Outstanding(cfg, s);
    ArrivingResult(cfg, s.table.flows[id], s.logs, id, r, Outstanding(cfg, s));
  }

  lemma RightInMap(cfg: Config, c: ConnState, f: Flow, log: Log, r: WorkResult, after: Flow)
    requires ConnOk(cfg, c, f, log, []) && Flushed(WithResult(f, r), after) && after.nextResponse in after.completed
    requires f.nextResponse <= r.sequence < f.nextRequest && r.response == cfg.respond(Requests(log)[r.sequence])
    ensures after.nextResponse < |Requests(log)|
    ensures after.completed[after.nextResponse] == cfg.respond(Requests(log)[after.nextResponse])
  {
    hide StreamOk;
  }

  /** An event of a half-closed connection does not read. */
  ghost predicate HalfClosedReads(s: State) {
    s.pc.Submitting? && s.pc.id in s.table.flows && s.table.flows[s.pc.id].closeAfterFlush ==> s.pc.status.ReadOk?
  }

  lemma HalfClosedReadsStep(cfg: Config, s: State, l: Label)
    requires HalfClosedReads(s)
    ensures HalfClosedReads(Step(cfg, s, l))
  {
    hide ArriveStep, EventStep, SubmitStep, CountStep, FinishStep, ProcessStep, ShutdownStep, WorkerStep;
    StepPcs(cfg, s, l);
    if s.pc.Polling? && l.Event? {
      EventReads(cfg, s, l);
    } else if l.Work? {
      if l.worker < |s.workers| {
        WorkerKeepsTable(cfg, s, l.worker);
      }
    } else if s.pc.Submitting? && s.pc.id in s.table.connections && s.pc.id in s.table.flows && s.pc.id in s.logs {
      if l.Finish? {
        FinishOrNothing(cfg, s, l.sent, l.wrote);
      } else if s.pc.todo != [] {
        SubmitReads(cfg, s);
      }
    }
  }

  lemma FinishOrNothing(cfg: Config, s: State, sent: nat, wrote: WriteStatus)
    requires s.pc.Submitting? && s.pc.id in s.table.connections && s.pc.id in s.table.flows && s.pc.id in s.logs
    ensures var t := FinishStep(cfg, s, sent, wrote);
            t == s || t.pc.Polling?
  {
    hide Conclude, WriteOutcome;
  }

  lemma EventReads(cfg: Config, s: State, e: Label)
    requires s.pc.Polling? && e.Event?
    ensures HalfClosedReads(EventStep(cfg, s, e))
  {
    hide Settle, Parse, ReadOutcome;
  }

  lemma SubmitReads(cfg: Config, s: State)
    requires HalfClosedReads(s) && s.pc.Submitting? && s.pc.todo != []
    requires s.pc.id in s.table.connections && s.pc.id in s.table.flows && s.pc.id in s.logs
    ensures HalfClosedReads(SubmitStep(cfg, s)) && HalfClosedReads(CountStep(s))
  {
    hide Settle;
  }

  lemma {:induction false} HalfClosedReadsRun(cfg: Config, labels: seq<Label>)
    ensures HalfClosedReads(Execute(cfg, labels))
  {
    hide Step;
    if labels != [] {
      HalfClosedReadsRun(cfg, labels[..|labels| - 1]);
      HalfClosedReadsStep(cfg, Execute(cfg, labels[..|labels| - 1]), labels[|labels| - 1]);
    }
  }

  /** A step with a peer that reads and stays gives no cause to cut the connection off. */
  lemma NoCauseToDrop(cfg: Config, s: State, l: Label, id: nat)
    requires Inv(cfg, s) && DrainStep(cfg, s, l, id) && !(l.Finish? && l.wrote.WritePeerClosed?)
    requires id in s.table.flows && s.table.flows[id].closeAfterFlush && HalfClosedReads(s) && Deliverable(cfg, s, id)
    requires id in s.table.connections
    ensures !Cause(cfg, s, l, id)
  {
    hide Inv, Effective, Deliverable, CompleteOutcome, Unsendable, WriteOutcome;
    KnownId(cfg, s, id);
    NotExternal(cfg, s, l);
    if s.pc.Processing? && s.pc.batch != [] && s.pc.batch[0].id == id {
      ResultIsQueued(cfg, s, id);
    }
  }

  lemma NotExternal(cfg: Config, s: State, l: Label)
    ensures Effective(cfg, s, l) ==> !l.Shutdown? && !l.Event?
  {}

  /** What was deliverable stays so. */
  lemma StaysDeliverable(cfg: Config, s: State, l: Label, id: nat)
    requires Inv(cfg, s) && Inv(cfg, Step(cfg, s, l)) && Running(s) && DrainStep(cfg, s, l, id)
    requires id in s.table.flows && s.table.flows[id].closeAfterFlush && id != SHUTDOWN_SIGNAL_KEY
    requires Deliverable(cfg, s, id)
    ensures Deliverable(cfg, Step(cfg, s, l), id)
  {
    hide Inv, Step, ResponseStream, Effective;
    var t := Step(cfg, s, l);
    KnownId(cfg, s, id);
    PendingIsLeft(cfg, s, id);
    if !Effective(cfg, s, l) {
      WriteWanted(cfg, s, id);
      OnlyThePc(cfg, s, id);
    } else if l.Finish? && s.pc.Submitting? && s.pc.id == id {
      assert t != s by { Moves(cfg, s, l); }
      OwnFinish(cfg, s, l, id);
    } else {
      OtherStep(cfg, s, l, id);
    }
  }

  lemma Moves(cfg: Config, s: State, l: Label)
    requires Effective(cfg, s, l)
    ensures Step(cfg, s, l) != s
  {}

  lemma OnlyThePc(cfg: Config, s: State, id: nat)
    requires s.pc.Polling? && id in s.table.connections && id in s.table.flows && id in s.logs
    ensures Step(cfg, s, Writable(id)).logs == s.logs && Step(cfg, s, Writable(id)).table == s.table
  {
    hide Parse, ReadOutcome;
  }

  /** One step on the way. */
  lemma {:induction false} DeliversOn(cfg: Config, labels: seq<Label>, l: Label, id: nat)
    requires cfg.Valid() && Running(Execute(cfg, labels)) && DrainStep(cfg, Execute(cfg, labels), l, id)
    requires !(l.Finish? && l.wrote.WritePeerClosed?) && Deliverable(cfg, Execute(cfg, labels), id)
    requires id in Execute(cfg, labels).table.flows && Execute(cfg, labels).table.flows[id].closeAfterFlush
    ensures var s := Execute(cfg, labels + [l]);
            Deliverable(cfg, s, id) && !s.logs[id].ending.Aborted?
  {
    hide Inv, Execute, Step, DrainStep, Cause, Running;
    Then(cfg, labels, l);
    Reachable(cfg, labels);
    Reachable(cfg, labels + [l]);
    LastIdIsNeverServed(cfg, labels, id);
    HalfClosedReadsRun(cfg, labels);
    KnownId(cfg, Execute(cfg, labels), id);
    NoCauseToDrop(cfg, Execute(cfg, labels), l, id);
    CutOffForCause(cfg, labels, l, id);
    StaysDeliverable(cfg, Execute(cfg, labels), l, id);
  }

  lemma {:induction false} DeliversThrough(cfg: Config, labels: seq<Label>, more: seq<Label>, id: nat)
    requires cfg.Valid() && Running(Execute(cfg, labels)) && DrainSchedule(cfg, labels, more, id)
    requires id in Execute(cfg, labels).table.flows && Execute(cfg, labels).table.flows[id].closeAfterFlush
    requires Deliverable(cfg, Execute(cfg, labels), id)
    requires forall i :: 0 <= i < |more| ==> !(more[i].Finish? && more[i].wrote.WritePeerClosed?)
    ensures var s := Execute(cfg, labels + more);
            id in s.logs && !s.logs[id].ending.Aborted? && (id in s.table.flows ==> Deliverable(cfg, s, id))
  {
    hide Inv, Execute, Step, DrainStep, Running, Deliverable;
    if more == [] {
      assert labels + more == labels;
      HalfCloseStays(cfg, labels, more, id);
      OpenIsNotAborted(cfg, labels, id);
    } else {
      var n := |more| - 1;
      var init := labels + more[..n];
      assert forall i :: 0 <= i < n ==> more[..n][..i] == more[..i];
      DeliversThrough(cfg, labels, more[..n], id);
      DrainScheduleLightens(cfg, labels, more[..n], id);
      HalfCloseStays(cfg, labels, more[..n], id);
      assert init + [more[n]] == labels + more;
      if id in Execute(cfg, init).table.flows {
        DeliversOn(cfg, init, more[n], id);
        HalfCloseStays(cfg, labels, more, id);
      } else {
        EndedIsFinal(cfg, init, [more[n]], id);
      }
    }
  }

  lemma {:induction false} OpenIsNotAborted(cfg: Config, labels: seq<Label>, id: nat)
    requires cfg.Valid() && id in Execute(cfg, labels).table.flows
    ensures id in Execute(cfg, labels).logs && Execute(cfg, labels).logs[id].ending.Open?
  {
    hide Inv, Execute;
    Reachable(cfg, labels);
    KnownId(cfg, Execute(cfg, labels), id);
    OpenLog(cfg, Execute(cfg, labels), id);
  }

  /** Half-close delivers everything, under every schedule. If the responses have frames and
      what is left of them fits in the output buffer, then however the server's threads and the
      writes to a peer that reads and stays are scheduled, they come to an end after boundedly
      many steps, and then the connection has been sent all its responses and let go. */
  lemma {:induction false} EveryDrainDelivers(cfg: Config, labels: seq<Label>, more: seq<Label>, id: nat)
    requires cfg.Valid() && Running(Execute(cfg, labels)) && DrainSchedule(cfg, labels, more, id)
    requires id in Execute(cfg, labels).table.flows && Execute(cfg, labels).table.flows[id].closeAfterFlush
    requires Deliverable(cfg, Execute(cfg, labels), id)
    requires forall i :: 0 <= i < |more| ==> !(more[i].Finish? && more[i].wrote.WritePeerClosed?)
    requires forall l :: !DrainStep(cfg, Execute(cfg, labels + more), l, id)
    ensures |more| <= Weight(Execute(cfg, labels)) + 2 * BytesLeft(cfg, Execute(cfg, labels), id)
    ensures var s := Execute(cfg, labels + more);
            && id !in s.table.flows && id in s.logs && s.logs[id].ending.Drained?
            && s.logs[id].sent == ResponseStream(cfg.respond, Parse(s.logs[id].received).messages)
  {
    hide Inv, Execute, DrainStep, DrainSchedule, Running, Weight, BytesLeft, ResponseStream, Parse, Deliverable;
    EveryDrainEnds(cfg, labels, more, id);
    DeliversThrough(cfg, labels, more, id);
  }
}
