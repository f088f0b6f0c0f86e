/** The whole server as a step system. The reactor thread and the workers interleave at
    the granularity of their shared accesses: each locked region, each notification, each
    access to the wake-up counter is a step of its own. The labels carry what the
    environment decides: which thread runs, what `recv` and `send` transfer, which
    sleeping worker a notification wakes. */
module Servers {
  import opened Codec
  import opened Streams
  import opened Connections
  import opened Reactors

  /** A worker thread: about to look at the queue, waiting on the condition variable, woken
      from it, with an item in hand, with a result in hand, between storing its result and
      writing the wake-up counter, or done. */
  datatype Worker =
    | Ready
    | Asleep
    | Woken
    | Holding(item: WorkItem)
    | Computed(result: WorkResult)
    | Announcing
    | Exited

  /** Where the reactor is inside `SubmitWork`: before the test of the next message, after
      its push and before `notify_one`, or before the counter is incremented. */
  datatype Phase = Testing | Pushed | Notified

  /** Where the reactor thread is. Between two events it is Polling. In a connection event it
      submits the messages in `todo`; with none left it concludes the event. In a wake-up
      event it drains the counter, swaps the deque, and processes the batch. */
  datatype Pc =
    | Polling
    | Submitting(id: nat, todo: seq<Message>, phase: Phase, status: ReadStatus, writable: bool)
    | Draining
    | Swapping
    | Processing(batch: seq<WorkResult>)
    | Stopped
    | Failed

  /** The past of a connection, kept after its end. */
  datatype Log = Log(received: seq<Byte>, parsed: Parsed, sent: seq<Byte>, ending: Ending)

  datatype State = State(
    table: Table, pc: Pc,
    queue: seq<WorkItem>, queueClosed: bool, allOwed: bool,
    workers: seq<Worker>,
    stored: seq<WorkResult>, counter: nat,
    logs: map<nat, Log>,
    accepted: seq<WorkItem>, popped: seq<WorkItem>, published: seq<WorkResult>)

  datatype Label =
    | Arrive(registers: bool)
    | Event(id: nat, error: bool, readable: bool, writable: bool, received: seq<Byte>, result: ReadResult)
    | Submit
    | NotifyOne(woken: nat)
    | Count
    | Finish(sent: nat, wrote: WriteStatus)
    | Wake
    | DrainCounter
    | Swap
    | Process
    | Shutdown(order: seq<nat>)
    | ClosePool
    | NotifyAll
    | RequestStop
    | Work(worker: nat)
    | Spurious(worker: nat)

  /** An event of a connection that can be written to, and no more. */
  function Writable(id: nat): Label {
    Event(id, false, false, true, [], ReadResult(ReadOk, [], None))
  }

  /** The largest value of an eventfd counter; a write that would exceed it fails. */
  const COUNTER_MAX := 0xFFFF_FFFF_FFFF_FFFE
  const NEW_LOG := Log([], Parsed([], [], None), [], Open)

  function Initial(cfg: Config): State {
    State(EMPTY_TABLE, Polling, [], false, false, seq(cfg.workerCount, _ => Ready), [], 0, map[], [], [], [])
  }

  function Perform(cfg: Config, item: WorkItem): WorkResult {
    WorkResult(item.id, item.sequence, cfg.respond(item.request))
  }

  // ---------------------------------------------------------- steps of a worker

  function Bumped(counter: nat): nat {
    if counter < COUNTER_MAX then counter + 1 else counter
  }

  /** The next step of worker `w`. A sleeping worker and one that is done have none. */
  function WorkerStep(cfg: Config, s: State, w: nat): State
    requires w < |s.workers|
  {
    match s.workers[w]
    case Asleep => s
    case Exited => s
    case Holding(item) => s.(workers := s.workers[w := Computed(Perform(cfg, item))])
    case Computed(result) =>
      s.(workers := s.workers[w := Announcing], stored := s.stored + [result], published := s.published + [result])
    case Announcing => s.(workers := s.workers[w := Ready], counter := Bumped(s.counter))
    case _ =>
      if s.queue != [] then
        s.(workers := s.workers[w := Holding(s.queue[0])], queue := s.queue[1..], popped := s.popped + [s.queue[0]])
      else s.(workers := s.workers[w := if s.queueClosed then Exited else Asleep])
  }

  function WakeAll(workers: seq<Worker>): (r: seq<Worker>)
    ensures |r| == |workers|
  {
    seq(|workers|, i requires 0 <= i < |workers| => if workers[i].Asleep? then Woken else workers[i])
  }

  /** `notify_one` wakes the sleeping worker the system chooses, and none if none sleeps. */
  function WakeOne(workers: seq<Worker>, w: nat): seq<Worker> {
    if w < |workers| && workers[w].Asleep? then workers[w := Woken] else workers
  }

  // ------------------------------------------------------ steps of the reactor

  function Record(s: State, id: nat, log: Log, settled: (Table, Ending), pc: Pc): State {
    s.(table := settled.0, logs := s.logs[id := log.(ending := settled.1)], pc := pc)
  }

  function ArriveStep(cfg: Config, s: State, registers: bool): (s': State)
    ensures s'.table.nextId >= s.table.nextId
  {
    var (t, r) := Accept(cfg.maxConnections, s.table, registers);
    var id := s.table.nextId;
    match r
    case TurnedAway => s
    case OutOfIds => s.(pc := Failed)
    case Refused => s.(table := t, logs := s.logs[id := NEW_LOG.(ending := Aborted)], pc := Failed)
    case Joined => s.(table := t, logs := s.logs[id := NEW_LOG])
  }

  /** The beginning of a connection event, up to the call of `SubmitWork`. Events may be
      stale: nothing relates them to the present interest or even to a live connection. An
      event with the shutdown key never reaches a connection: the reactor looks for a signal
      instead, and finds none (a signal that is there is a Shutdown step). */
  function EventStep(cfg: Config, s: State, e: Label): (s': State)
    requires e.Event?
    ensures s'.table.nextId == s.table.nextId
  {
    var id := e.id;
    if id == SHUTDOWN_SIGNAL_KEY || id !in s.table.connections || id !in s.logs then s
    else if id !in s.table.flows then s.(table := Remove(s.table, id))
    else
      var c, f, log := s.table.connections[id], s.table.flows[id], s.logs[id];
      if e.error then Record(s, id, log, Settle(s.table, id, c, f, true), Polling)
      else if e.readable && !f.closeAfterFlush then
        var p := Parse(c.input + e.received);
        if !ReadOutcome(cfg.maxInput, cfg.readBudget, c.input, e.received, e.result, p.rest) then s
        else
          s.(table := Put(s.table, id, c.(input := p.rest), f),
             logs := s.logs[id := log.(received := log.received + e.received,
                                       parsed := p.(messages := log.parsed.messages + p.messages))],
             pc := Submitting(id, e.result.messages, Testing, e.result.status, e.writable))
      else s.(pc := Submitting(id, [], Testing, ReadOk, e.writable))
  }

  /** The test of the in-flight limit and the locked region of `TryPush`. */
  function SubmitStep(cfg: Config, s: State): (s': State)
    requires s.pc.Submitting? && s.pc.id in s.table.connections && s.pc.id in s.table.flows && s.pc.id in s.logs
    requires s.pc.todo != []
    ensures s'.table.nextId == s.table.nextId
  {
    var id := s.pc.id;
    var c, f, log := s.table.connections[id], s.table.flows[id], s.logs[id];
    if f.nextRequest - f.nextResponse >= cfg.maxInFlight || s.queueClosed || |s.queue| >= cfg.queueCapacity then
      Record(s, id, log, Settle(s.table, id, c, f, true), Polling)
    else
      var item := WorkItem(id, f.nextRequest, s.pc.todo[0]);
      s.(queue := s.queue + [item], accepted := s.accepted + [item], pc := s.pc.(phase := Pushed))
  }

  function CountStep(s: State): (s': State)
    requires s.pc.Submitting? && s.pc.id in s.table.flows && s.pc.todo != []
    ensures s'.table.nextId == s.table.nextId
  {
    var f := s.table.flows[s.pc.id];
    s.(table := s.table.(flows := s.table.flows[s.pc.id := f.(nextRequest := f.nextRequest + 1)]),
       pc := s.pc.(phase := Testing, todo := s.pc.todo[1..]))
  }

  function FinishStep(cfg: Config, s: State, sent: nat, wrote: WriteStatus): (s': State)
    requires s.pc.Submitting? && s.pc.id in s.table.connections && s.pc.id in s.table.flows && s.pc.id in s.logs
    ensures s'.table.nextId == s.table.nextId
  {
    var id := s.pc.id;
    var c, log := s.table.connections[id], s.logs[id];
    var writes := s.pc.writable && !s.pc.status.ReadProtocolError?;
    var n := if writes then sent else 0;
    if n > |c.output| then s
    else if writes && !WriteOutcome(cfg.writeBudget, c.output, c.output[..n], wrote, c.output[n..]) then s
    else
      Record(s, id, log.(sent := log.sent + c.output[..n]),
             Conclude(s.table, id, s.pc.status, s.pc.writable, n, wrote), Polling)
  }

  function ProcessStep(cfg: Config, s: State): (s': State)
    requires s.pc.Processing? && s.pc.batch != []
    ensures s'.table.nextId == s.table.nextId
  {
    var r, pc := s.pc.batch[0], Processing(s.pc.batch[1..]);
    if r.id in s.table.connections && r.id in s.table.flows && r.id in s.logs then
      Record(s, r.id, s.logs[r.id], Complete(cfg.maxOutput, s.table, r), pc)
    else s.(pc := pc)
  }

  /** Closing all connections in the order the hash map yields them. The step is taken with
      the order in which the loop comes to its end, and with no other. */
  function ShutdownStep(s: State, order: seq<nat>): (s': State)
    ensures s'.table.nextId == s.table.nextId
  {
    var t := RemoveAll(s.table, order);
    if t.flows != map[] then s
    else
      s.(table := t, pc := Stopped,
         logs := map id | id in s.logs :: if id in s.table.flows then s.logs[id].(ending := Aborted) else s.logs[id])
  }

  function ReactorStep(cfg: Config, s: State, l: Label): State {
    match s.pc
    case Polling =>
      (match l
       case Arrive(registers) => ArriveStep(cfg, s, registers)
       case Event(_, _, _, _, _, _) => EventStep(cfg, s, l)
       case Wake => s.(pc := Draining)
       case Shutdown(order) => ShutdownStep(s, order)
       case _ => s)
    case Submitting(id, todo, phase, _, _) =>
      if id !in s.table.connections || id !in s.table.flows || id !in s.logs then s
      else
        (match l
         case Submit => if phase.Testing? && todo != [] then SubmitStep(cfg, s) else s
         case NotifyOne(w) =>
           if phase.Pushed? && (forall i :: 0 <= i < |s.workers| && s.workers[i].Asleep? ==>
                                  w < |s.workers| && s.workers[w].Asleep?) then
             s.(workers := WakeOne(s.workers, w), pc := s.pc.(phase := Notified))
           else s
         case Count => if phase.Notified? && todo != [] then CountStep(s) else s
         case Finish(sent, wrote) => if phase.Testing? && todo == [] then FinishStep(cfg, s, sent, wrote) else s
         case _ => s)
    case Draining =>
      if l.DrainCounter? then (if s.counter > 0 then s.(counter := 0) else s.(pc := Swapping)) else s
    case Swapping => if l.Swap? then s.(pc := Processing(s.stored), stored := []) else s
    case Processing(batch) =>
      if l.Process? then (if batch == [] then s.(pc := Polling) else ProcessStep(cfg, s)) else s
    case Stopped => if l.ClosePool? then s.(queueClosed := true, allOwed := true) else s
    case Failed => if l.ClosePool? then s.(queueClosed := true, allOwed := true) else s
  }

  /** One step. A label that the present state does not allow changes nothing. */
  function Step(cfg: Config, s: State, l: Label): State {
    match l
    case Work(w) => if w < |s.workers| then WorkerStep(cfg, s, w) else s
    case Spurious(w) => s.(workers := WakeOne(s.workers, w))
    case NotifyAll => if s.allOwed then s.(workers := WakeAll(s.workers), allOwed := false) else s
    case RequestStop => s.(counter := Bumped(s.counter))
    case _ => ReactorStep(cfg, s, l)
  }

  /** The state after any sequence of labels: every interleaving, every environment. */
  function Execute(cfg: Config, labels: seq<Label>): State {
    if labels == [] then Initial(cfg)
    else Step(cfg, Execute(cfg, labels[..|labels| - 1]), labels[|labels| - 1])
  }

  /** A run ends with what is appended to it. */
  lemma Then(cfg: Config, labels: seq<Label>, l: Label)
    ensures Execute(cfg, labels + [l]) == Step(cfg, Execute(cfg, labels), l)
  {
    assert (labels + [l])[..|labels|] == labels;
  }
}
