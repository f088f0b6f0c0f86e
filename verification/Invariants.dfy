/** What every step of the server keeps. */
module Invariants {
  import opened Codec
  import opened Streams
  import opened Reactors
  import opened Servers

  // ------------------------------------------------------- connections and logs

  function Requests(log: Log): seq<Message> {
    log.parsed.messages
  }

  /** The reactor's maps agree, and there are not too many connections. */
  ghost predicate TableOk(cfg: Config, t: Table) {
    Coherent(t) && |t.connections| <= cfg.maxConnections
  }

  /** Every id ever given out has a log, open exactly while the connection lives. */
  ghost predicate LogsOk(t: Table, logs: map<nat, Log>) {
    && (forall id :: id in logs <==> 1 <= id < t.nextId)
    && (forall id :: id in logs ==> (logs[id].ending.Open? <==> id in t.flows))
    && (forall id :: id in logs ==> logs[id].parsed == Parse(logs[id].received))
  }

  /** The bytes sent and pending answer the first requests, and no more. */
  ghost predicate StreamOk(cfg: Config, c: ConnState, f: Flow, log: Log) {
    && f.nextResponse <= f.nextRequest <= |Requests(log)|
    && log.sent + c.output == ResponseStream(cfg.respond, Requests(log)[..f.nextResponse])
  }

  /** The reorder map holds right responses only, none of them below `least`. */
  ghost predicate CompletedOk(cfg: Config, f: Flow, log: Log, least: nat) {
    && f.nextRequest <= |Requests(log)|
    && forall k :: k in f.completed ==>
         least <= k < f.nextRequest && f.completed[k] == cfg.respond(Requests(log)[k])
  }

  ghost predicate ConnOk(cfg: Config, c: ConnState, f: Flow, log: Log, todo: seq<Message>) {
    && StreamOk(cfg, c, f, log)
    && CompletedOk(cfg, f, log, f.nextResponse + 1)
    && f.nextRequest <= f.nextResponse + cfg.maxInFlight
    && todo == Requests(log)[f.nextRequest..]
    && c.input == log.parsed.rest
    && |c.input| <= cfg.maxInput
    && |c.output| <= cfg.maxOutput
  }

  /** The messages of the connection that are decoded and not yet counted as submitted. */
  function Todo(pc: Pc, id: nat): seq<Message> {
    if pc.Submitting? && pc.id == id then pc.todo else []
  }

  /** Only the connection whose event is being handled may hold a stream error. */
  predicate ErrorOk(pc: Pc, id: nat, log: Log) {
    log.parsed.error.None? || (pc.Submitting? && pc.id == id && pc.status.ReadProtocolError?)
  }

  ghost predicate LiveOk(cfg: Config, t: Table, logs: map<nat, Log>, pc: Pc, id: nat)
    requires id in t.connections && id in t.flows && id in logs
  {
    && ConnOk(cfg, t.connections[id], t.flows[id], logs[id], Todo(pc, id))
    && !ShouldClose(t.connections[id], t.flows[id])
    && ErrorOk(pc, id, logs[id])
  }

  /** A connection that is gone was sent a prefix of its responses, and all of them if it
      was closed after draining. */
  ghost predicate EndedOk(cfg: Config, log: Log) {
    && log.sent <= ResponseStream(cfg.respond, Requests(log))
    && (log.ending.Drained? ==> log.sent == ResponseStream(cfg.respond, Requests(log)) && log.parsed.error.None?)
  }

  ghost predicate PcOk(cfg: Config, t: Table, pc: Pc) {
    pc.Submitting? ==>
      && pc.id in t.flows
      && (pc.todo != [] ==> !t.flows[pc.id].closeAfterFlush)
      && (!pc.phase.Testing? ==>
            pc.todo != [] && t.flows[pc.id].nextRequest < t.flows[pc.id].nextResponse + cfg.maxInFlight)
  }

  /** A read was rejected for an error in the stream, or for a frame that filled the buffer. */
  predicate StatusOk(cfg: Config, logs: map<nat, Log>, pc: Pc) {
    pc.Submitting? && pc.status.ReadProtocolError? ==>
      pc.id in logs && (logs[pc.id].parsed.error.Some? || |logs[pc.id].parsed.rest| >= cfg.maxInput)
  }

  /** All that concerns connections, their logs and the reactor's position. */
  ghost predicate ConnectionsOk(cfg: Config, t: Table, logs: map<nat, Log>, pc: Pc) {
    && TableOk(cfg, t)
    && LogsOk(t, logs)
    && PcOk(cfg, t, pc)
    && (forall id :: id in t.flows ==> LiveOk(cfg, t, logs, pc, id))
    && (forall id :: id in logs && id !in t.flows ==> EndedOk(cfg, logs[id]))
  }

  // ------------------------------------------------------------- conservation

  function Results(cfg: Config, items: seq<WorkItem>): (r: seq<WorkResult>)
    ensures |r| == |items|
  {
    seq(|items|, i requires 0 <= i < |items| => Perform(cfg, items[i]))
  }

  /** What a worker has in hand, as the result it will be. */
  function InHand(cfg: Config): Worker -> seq<WorkResult> {
    (w: Worker) => if w.Holding? then [Perform(cfg, w.item)] else if w.Computed? then [w.result] else []
  }

  function Hands(cfg: Config, workers: seq<Worker>): seq<WorkResult> {
    Concat(InHand(cfg), workers)
  }

  function Batch(pc: Pc): seq<WorkResult> {
    if pc.Processing? then pc.batch else []
  }

  /** All the work under way, wherever it is, each piece as the result it is or will be. */
  function Outstanding(cfg: Config, s: State): multiset<WorkResult> {
    multiset(Results(cfg, s.queue)) + multiset(Hands(cfg, s.workers)) + multiset(s.stored) + multiset(Batch(s.pc))
  }

  /** One sequence number may be under way before the counter covers it. */
  function Ahead(pc: Pc, id: nat): nat {
    if pc.Submitting? && pc.id == id && !pc.phase.Testing? then 1 else 0
  }

  function Expected(cfg: Config, log: Log, id: nat, k: nat): WorkResult
    requires k < |Requests(log)|
  {
    WorkResult(id, k, cfg.respond(Requests(log)[k]))
  }

  /** Every piece of work under way is the right answer to a request that was received, and
      is under way once only. */
  ghost predicate AuthenticOk(cfg: Config, logs: map<nat, Log>, out: multiset<WorkResult>) {
    forall r :: r in out ==>
      && out[r] == 1
      && r.id in logs
      && r.sequence < |Requests(logs[r.id])|
      && r == Expected(cfg, logs[r.id], r.id, r.sequence)
  }

  /** For a live connection, exactly the submitted and unanswered requests are under way or
      in the reorder map, and each is in exactly one of these places. */
  ghost predicate AccountedOk(cfg: Config, f: Flow, log: Log, ahead: nat, id: nat, out: multiset<WorkResult>) {
    && f.nextRequest + ahead <= |Requests(log)|
    && (forall k :: f.nextResponse <= k < f.nextRequest + ahead ==>
          (k in f.completed <==> Expected(cfg, log, id, k) !in out))
    && (forall r :: r in out && r.id == id ==> f.nextResponse <= r.sequence < f.nextRequest + ahead)
  }

  ghost predicate ConservedOk(cfg: Config, flows: map<nat, Flow>, logs: map<nat, Log>, pc: Pc,
                              out: multiset<WorkResult>) {
    && AuthenticOk(cfg, logs, out)
    && (forall id :: id in flows ==> id in logs && AccountedOk(cfg, flows[id], logs[id], Ahead(pc, id), id, out))
  }

  // --------------------------------------------------- wake-ups, sleep, history

  /** No wake-up is lost: while results are stored, the counter is positive, or a worker
      has still to bump it, or the reactor is on its way to the deque. */
  ghost predicate WakeupOk(s: State) {
    && s.counter <= COUNTER_MAX
    && (s.stored != [] ==>
          || s.counter > 0
          || (exists w :: 0 <= w < |s.workers| && s.workers[w].Announcing?)
          || s.pc.Draining? || s.pc.Swapping?)
  }

  function WokenMark(): Worker -> seq<()> {
    (w: Worker) => if w.Woken? then [()] else []
  }

  function WokenCount(workers: seq<Worker>): nat {
    |Concat(WokenMark(), workers)|
  }

  /** Notifications owed by a push that has not reached its `notify_one`. */
  function Owed(pc: Pc): nat {
    if pc.Submitting? && pc.phase.Pushed? then 1 else 0
  }

  ghost predicate SomeoneSleeps(workers: seq<Worker>) {
    exists w :: 0 <= w < |workers| && workers[w].Asleep?
  }

  /** While a worker sleeps, every queued item has a notification on its way or a woken
      worker that will look again; and a closed queue has its broadcast on its way. */
  ghost predicate SleepOk(s: State) {
    SomeoneSleeps(s.workers) ==>
      && |s.queue| <= Owed(s.pc) + WokenCount(s.workers)
      && (s.queueClosed ==> s.allOwed)
  }

  /** The queue is first in, first out and bounded, and a worker leaves it for good only
      when it is closed and empty. */
  ghost predicate QueueOk(cfg: Config, s: State) {
    && |s.workers| == cfg.workerCount
    && s.accepted == s.popped + s.queue
    && |s.queue| <= cfg.queueCapacity
    && (forall w :: 0 <= w < |s.workers| && s.workers[w].Exited? ==> s.queueClosed && s.queue == [])
  }

  /** What was taken from the queue is published or in a worker's hands, and once only. */
  ghost predicate DeliveryOk(cfg: Config, s: State) {
    multiset(Results(cfg, s.popped)) == multiset(s.published) + multiset(Hands(cfg, s.workers))
  }

  ghost predicate Inv(cfg: Config, s: State) {
    && ConnectionsOk(cfg, s.table, s.logs, s.pc)
    && StatusOk(cfg, s.logs, s.pc)
    && ConservedOk(cfg, s.table.flows, s.logs, s.pc, Outstanding(cfg, s))
    && WakeupOk(s)
    && SleepOk(s)
    && QueueOk(cfg, s)
    && DeliveryOk(cfg, s)
  }

  // ----------------------------------------------------- pieces held by workers

  lemma ConcatSplit<T, U>(f: T -> seq<U>, a: seq<T>, x: T, b: seq<T>)
    ensures Concat(f, a + [x] + b) == Concat(f, a) + f(x) + Concat(f, b)
  {
    hide Concat;
    ConcatAppend(f, a + [x], b);
    ConcatSnoc(f, a, x);
  }

  lemma ConcatUpdate<T, U>(f: T -> seq<U>, xs: seq<T>, i: nat, x: T)
    requires i < |xs|
    ensures |Concat(f, xs[i := x])| + |f(xs[i])| == |Concat(f, xs)| + |f(x)|
    ensures multiset(Concat(f, xs[i := x])) + multiset(f(xs[i])) == multiset(Concat(f, xs)) + multiset(f(x))
  {
    hide Concat;
    var a, b := xs[..i], xs[i + 1..];
    assert xs == a + [xs[i]] + b && xs[i := x] == a + [x] + b;
    ConcatSplit(f, a, x, b);
    ConcatSplit(f, a, xs[i], b);
  }

  /** Changing one worker changes what is in hand by what that worker had and has. */
  lemma HandsUpdate(cfg: Config, workers: seq<Worker>, w: nat, v: Worker)
    requires w < |workers|
    ensures multiset(Hands(cfg, workers[w := v])) + multiset(InHand(cfg)(workers[w]))
         == multiset(Hands(cfg, workers)) + multiset(InHand(cfg)(v))
  {
    hide Concat;
    ConcatUpdate(InHand(cfg), workers, w, v);
  }

  lemma Cancel<T>(a: multiset<T>, b: multiset<T>, p: multiset<T>)
    requires a + p == b + p
    ensures a == b
  {
    assert forall x :: (a + p)[x] == a[x] + p[x] && (b + p)[x] == b[x] + p[x];
  }

  lemma HandsKept(cfg: Config, workers: seq<Worker>, w: nat, v: Worker)
    requires w < |workers| && InHand(cfg)(v) == InHand(cfg)(workers[w])
    ensures multiset(Hands(cfg, workers[w := v])) == multiset(Hands(cfg, workers))
  {
    hide Hands, InHand;
    HandsUpdate(cfg, workers, w, v);
    Cancel(multiset(Hands(cfg, workers[w := v])), multiset(Hands(cfg, workers)), multiset(InHand(cfg)(v)));
  }

  lemma HandsMoved(cfg: Config, workers: seq<Worker>, w: nat, v: Worker, r: WorkResult)
    requires w < |workers|
    ensures InHand(cfg)(workers[w]) == [] && InHand(cfg)(v) == [r] ==>
              multiset(Hands(cfg, workers[w := v])) == multiset(Hands(cfg, workers)) + multiset{r}
    ensures InHand(cfg)(workers[w]) == [r] && InHand(cfg)(v) == [] ==>
              multiset(Hands(cfg, workers)) == multiset(Hands(cfg, workers[w := v])) + multiset{r}
  {
    hide Hands, InHand;
    HandsUpdate(cfg, workers, w, v);
    assert multiset([r]) == multiset{r};
  }

  lemma WokenUpdate(workers: seq<Worker>, w: nat, v: Worker)
    requires w < |workers|
    ensures WokenCount(workers[w := v]) + (if workers[w].Woken? then 1 else 0)
         == WokenCount(workers) + (if v.Woken? then 1 else 0)
  {
    hide Concat;
    ConcatUpdate(WokenMark(), workers, w, v);
  }

  lemma ResultsAppend(cfg: Config, items: seq<WorkItem>, item: WorkItem)
    ensures multiset(Results(cfg, items + [item])) == multiset(Results(cfg, items)) + multiset{Perform(cfg, item)}
  {
    assert Results(cfg, items + [item]) == Results(cfg, items) + [Perform(cfg, item)];
  }

  lemma ResultsPop(cfg: Config, items: seq<WorkItem>)
    requires items != []
    ensures multiset(Results(cfg, items)) == multiset{Perform(cfg, items[0])} + multiset(Results(cfg, items[1..]))
  {
    assert Results(cfg, items) == [Perform(cfg, items[0])] + Results(cfg, items[1..]);
  }

  /** What one worker's step does to the work in hand. */
  lemma WorkerHands(cfg: Config, s: State, w: nat)
    requires w < |s.workers|
    ensures var before, after := multiset(Hands(cfg, s.workers)), multiset(Hands(cfg, WorkerStep(cfg, s, w).workers));
            match s.workers[w]
            case Computed(result) => before == after + multiset{result}
            case Holding(_) => after == before
            case Asleep => after == before
            case Exited => after == before
            case Announcing => after == before
            case _ => after == if s.queue == [] then before else before + multiset{Perform(cfg, s.queue[0])}
  {
    hide Hands;
    var v := WorkerStep(cfg, s, w).workers[w];
    assert WorkerStep(cfg, s, w).workers == s.workers[w := v];
    if s.workers[w].Computed? {
      HandsMoved(cfg, s.workers, w, v, s.workers[w].result);
    } else if (s.workers[w].Ready? || s.workers[w].Woken?) && s.queue != [] {
      HandsMoved(cfg, s.workers, w, v, Perform(cfg, s.queue[0]));
    } else {
      HandsKept(cfg, s.workers, w, v);
    }
  }

  /** A worker's step moves work, and never makes or loses any. */
  lemma {:induction false} WorkerMovesWork(cfg: Config, s: State, w: nat)
    requires w < |s.workers|
    ensures Outstanding(cfg, WorkerStep(cfg, s, w)) == Outstanding(cfg, s)
  {
    hide Hands, Results;
    WorkerHands(cfg, s, w);
    var hands, rest := multiset(Hands(cfg, WorkerStep(cfg, s, w).workers)), multiset(Batch(s.pc));
    if s.workers[w].Computed? {
      var r := s.workers[w].result;
      assert multiset(s.stored + [r]) == multiset(s.stored) + multiset{r};
      Regroup(multiset(Results(cfg, s.queue)), hands, multiset(s.stored), rest, r);
    } else if (s.workers[w].Ready? || s.workers[w].Woken?) && s.queue != [] {
      ResultsPop(cfg, s.queue);
      Regroup(multiset(Results(cfg, s.queue[1..])), multiset(Hands(cfg, s.workers)), multiset(s.stored), rest,
              Perform(cfg, s.queue[0]));
    }
  }

  lemma Regroup<T>(a: multiset<T>, b: multiset<T>, c: multiset<T>, d: multiset<T>, x: T)
    ensures a + (b + multiset{x}) + c + d == a + b + (c + multiset{x}) + d
    ensures (multiset{x} + a) + b + c + d == a + (b + multiset{x}) + c + d
  {}

  lemma WorkerKeepsDelivery(cfg: Config, s: State, w: nat)
    requires w < |s.workers| && DeliveryOk(cfg, s)
    ensures DeliveryOk(cfg, WorkerStep(cfg, s, w))
  {
    hide Hands, Results;
    WorkerHands(cfg, s, w);
    if s.queue != [] {
      ResultsAppend(cfg, s.popped, s.queue[0]);
    }
    if s.workers[w].Computed? {
      assert multiset(s.published + [s.workers[w].result]) == multiset(s.published) + multiset{s.workers[w].result};
    }
  }

  lemma WorkerKeepsQueue(cfg: Config, s: State, w: nat)
    requires w < |s.workers| && QueueOk(cfg, s)
    ensures QueueOk(cfg, WorkerStep(cfg, s, w))
  {
    hide WorkerStep;
    WorkerKeepsOrder(cfg, s, w);
    WorkerExits(cfg, s, w);
  }

  lemma WorkerKeepsOrder(cfg: Config, s: State, w: nat)
    requires w < |s.workers|
    ensures var t := WorkerStep(cfg, s, w);
            && t.accepted == s.accepted && t.popped + t.queue == s.popped + s.queue
            && |t.queue| <= |s.queue| && |t.workers| == |s.workers|
  {
    if s.queue != [] {
      assert s.queue == [s.queue[0]] + s.queue[1..];
      assert s.popped + s.queue == (s.popped + [s.queue[0]]) + s.queue[1..];
    }
  }

  lemma WorkerExits(cfg: Config, s: State, w: nat)
    requires w < |s.workers|
    requires forall v :: 0 <= v < |s.workers| && s.workers[v].Exited? ==> s.queueClosed && s.queue == []
    ensures var t := WorkerStep(cfg, s, w);
            forall v :: 0 <= v < |t.workers| && t.workers[v].Exited? ==> t.queueClosed && t.queue == []
  {}

  lemma WorkerKeepsSleep(cfg: Config, s: State, w: nat)
    requires w < |s.workers| && SleepOk(s)
    ensures SleepOk(WorkerStep(cfg, s, w))
  {
    hide WokenCount;
    var t := WorkerStep(cfg, s, w);
    var x := t.workers[w];
    assert t.workers == s.workers[w := x];
    WokenUpdate(s.workers, w, x);
    if !x.Asleep? && SomeoneSleeps(t.workers) {
      var v :| 0 <= v < |t.workers| && t.workers[v].Asleep?;
      assert s.workers[v].Asleep?;
    }
  }

  lemma WorkerKeepsWakeup(cfg: Config, s: State, w: nat)
    requires w < |s.workers| && WakeupOk(s)
    ensures WakeupOk(WorkerStep(cfg, s, w))
  {
    var t := WorkerStep(cfg, s, w);
    if v :| 0 <= v < |s.workers| && s.workers[v].Announcing? {
      assert v == w || t.workers[v].Announcing?;
    }
    if s.workers[w].Computed? {
      assert t.workers[w].Announcing?;
    }
  }
}
