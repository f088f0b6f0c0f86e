/** What the guarantees are about does happen. Whenever the server is quiet and has room for a
    client, the client can send any requests that fit, in batches as large as the limits allow;
    the workers can finish each batch in any order; the client is sent all responses in the
    order of its requests, and is let go when it half-closes. */
module Conversation {
  import opened Codec
  import opened Streams
  import opened Connections
  import opened Reactors
  import opened Servers
  import opened Invariants
  import opened Preservation
  import opened StepInvariants
  import opened Reachability
  import opened Theorems
  import opened Progress
  import opened Quiescence
  import opened Scenario
  import opened Draining
  import opened Handling

  /** Requests that are sent without waiting, and the order in which the workers finish them. */
  datatype Burst = Burst(requests: seq<Message>, order: seq<nat>)

  /** Every number below `n` occurs, and only once. */
  predicate Permutation(order: seq<nat>, n: nat) {
    && |order| == n
    && (forall i :: 0 <= i < n ==> i in order)
    && (forall i :: 0 <= i < n ==> order[i] < n)
    && (forall i, j :: 0 <= i < j < n ==> order[i] != order[j])
  }

  /** The batch is within the limits of the server. */
  ghost predicate Servable(cfg: Config, b: Burst) {
    var n := |b.requests|;
    && AllEncodable(b.requests) && AllFit(b.requests, cfg.maxInput)
    && (forall i :: 0 <= i < n ==> Encodable(cfg.respond(b.requests[i])))
    && |ResponseStream(cfg.respond, b.requests)| <= cfg.maxOutput
    && n <= cfg.maxInFlight && n <= cfg.queueCapacity && n <= cfg.workerCount
    && Permutation(b.order, n)
  }

  /** The results of the items, in the given order. */
  function InOrder(cfg: Config, items: seq<WorkItem>, order: seq<nat>): seq<WorkResult>
    requires forall i :: 0 <= i < |order| ==> order[i] < |items|
  {
    seq(|order|, i requires 0 <= i < |order| => Perform(cfg, items[order[i]]))
  }

  /** The work items of a batch that begins with sequence number `first`. */
  function Items(id: nat, first: nat, requests: seq<Message>): (items: seq<WorkItem>)
    ensures |items| == |requests|
  {
    seq(|requests|, i requires 0 <= i < |requests| => WorkItem(id, first + i, requests[i]))
  }

  // -------------------------------------------------------- between two batches

  /** The first `k` workers are woken and the others asleep. */
  ghost predicate Woke(workers: seq<Worker>, k: nat) {
    k <= |workers| && forall i :: 0 <= i < |workers| ==> workers[i] == if i < k then Woken else Asleep
  }

  /** The last `k` requests of the connection are queued, and as many workers woken for them;
      there is no other work in the server. */
  ghost predicate Loaded(s: State, id: nat, k: nat) {
    && id != SHUTDOWN_SIGNAL_KEY && id in s.table.connections && id in s.table.flows && id in s.logs
    && !s.queueClosed && s.stored == [] && s.counter == 0 && Woke(s.workers, k)
    && var f, log := s.table.flows[id], s.logs[id];
    && !f.closeAfterFlush && s.table.connections[id].output == []
    && f.nextRequest == f.nextResponse + k <= |Requests(log)|
    && s.queue == Items(id, f.nextResponse, Requests(log)[f.nextResponse..f.nextRequest])
  }

  /** The connection is open, has been answered in full, and nothing is going on. */
  ghost predicate Rested(s: State, id: nat) {
    s.pc.Polling? && Loaded(s, id, 0) && s.logs[id].parsed.rest == []
  }

  // ---------------------------------------------------------- requests come in

  /** Within an event of the connection, nothing has happened but that requests of it were
      submitted. */
  ghost predicate OnlySubmits(s: State, t: State, id: nat) {
    && s.pc.Submitting? && t.pc.Submitting? && t.pc == s.pc.(todo := t.pc.todo)
    && t.logs == s.logs && t.published == s.published
    && id in s.table.flows && id in t.table.flows
    && t.table.flows[id].nextResponse == s.table.flows[id].nextResponse
  }

  lemma SubmitsOne(cfg: Config, s: State, id: nat, k: nat)
    requires Loaded(s, id, k) && s.pc.Submitting? && s.pc.id == id && s.pc.phase.Testing? && s.pc.todo != []
    requires s.table.flows[id].nextRequest < |Requests(s.logs[id])|
    requires s.pc.todo[0] == Requests(s.logs[id])[s.table.flows[id].nextRequest]
    requires k < cfg.maxInFlight && k < cfg.queueCapacity && k < |s.workers|
    ensures var t := Step(cfg, Step(cfg, Step(cfg, s, Submit), NotifyOne(k)), Count);
            && Loaded(t, id, k + 1) && t.pc == s.pc.(todo := s.pc.todo[1..])
            && OnlySubmits(s, t, id) && |t.workers| == |s.workers|
  {
    hide Settle, Items, ArriveStep, EventStep, FinishStep, ProcessStep, ShutdownStep, WorkerStep;
    var f, requests := s.table.flows[id], Requests(s.logs[id]);
    var item := WorkItem(id, f.nextRequest, s.pc.todo[0]);
    MoreItems(id, f.nextResponse, requests, k);
    var a := Step(cfg, s, Submit);
    assert a == s.(queue := s.queue + [item], accepted := s.accepted + [item], pc := s.pc.(phase := Pushed));
    var b := Step(cfg, a, NotifyOne(k));
    assert b == a.(workers := a.workers[k := Woken], pc := s.pc.(phase := Notified));
    var t := Step(cfg, b, Count);
    assert t == b.(table := b.table.(flows := b.table.flows[id := f.(nextRequest := f.nextRequest + 1)]),
                   pc := s.pc.(todo := s.pc.todo[1..]));
  }

  lemma MoreItems(id: nat, first: nat, requests: seq<Message>, k: nat)
    requires first + k < |requests|
    ensures Items(id, first, requests[first..first + k + 1])
         == Items(id, first, requests[first..first + k]) + [WorkItem(id, first + k, requests[first + k])]
  {}

  /** What is left to submit is what the counter has not reached. */
  lemma TodoIsNext(cfg: Config, s: State, id: nat)
    requires Inv(cfg, s) && id in s.table.flows && id in s.logs
    ensures s.table.flows[id].nextRequest <= |Requests(s.logs[id])|
    ensures Todo(s.pc, id) == Requests(s.logs[id])[s.table.flows[id].nextRequest..]
    ensures id in s.table.connections && s.table.connections[id].input == s.logs[id].parsed.rest
    ensures s.logs[id].parsed == Parse(s.logs[id].received)
  {
    hide ConnectionsOk, ConservedOk, WakeupOk, SleepOk, QueueOk, DeliveryOk, TableOk, LogsOk, ResponseStream;
    LiveFacts(cfg, s.table, s.logs, s.pc, id);
  }

  /** The reactor has `n` more requests of the connection to submit, and room for them. */
  ghost predicate HasToSubmit(cfg: Config, s: State, id: nat, k: nat, n: nat) {
    && Loaded(s, id, k) && s.pc.Submitting? && s.pc.id == id && s.pc.phase.Testing? && |s.pc.todo| == n
    && k + n <= cfg.maxInFlight && k + n <= cfg.queueCapacity && k + n <= |s.workers|
  }

  lemma SubmitsNext(cfg: Config, s: State, id: nat, k: nat, n: nat)
    requires Inv(cfg, s) && HasToSubmit(cfg, s, id, k, n) && n > 0
    ensures var t := Step(cfg, Step(cfg, Step(cfg, s, Submit), NotifyOne(k)), Count);
            HasToSubmit(cfg, t, id, k + 1, n - 1) && OnlySubmits(s, t, id)
  {
    hide Inv, Step, Items, OnlySubmits;
    LoadedKeys(s, id, k);
    TodoIsNext(cfg, s, id);
    SubmitsOne(cfg, s, id, k);
  }

  lemma {:induction false} SubmitsAll(cfg: Config, labels: seq<Label>, id: nat, k: nat, n: nat)
    returns (more: seq<Label>)
    requires cfg.Valid() && HasToSubmit(cfg, Execute(cfg, labels), id, k, n)
    ensures HasToSubmit(cfg, Execute(cfg, more), id, k + n, 0)
    ensures OnlySubmits(Execute(cfg, labels), Execute(cfg, more), id)
    decreases n
  {
    hide Execute, Inv, Step, HasToSubmit;
    var s := Execute(cfg, labels);
    if n == 0 {
      more := labels;
      assert OnlySubmits(s, s, id) by { ToSubmitKeys(cfg, s, id, k, n); }
    } else {
      Reachable(cfg, labels);
      SubmitsNext(cfg, s, id, k, n);
      Then(cfg, labels, Submit);
      Then(cfg, labels + [Submit], NotifyOne(k));
      Then(cfg, labels + [Submit] + [NotifyOne(k)], Count);
      more := SubmitsAll(cfg, labels + [Submit] + [NotifyOne(k)] + [Count], id, k + 1, n - 1);
    }
  }

  lemma ToSubmitKeys(cfg: Config, s: State, id: nat, k: nat, n: nat)
    requires HasToSubmit(cfg, s, id, k, n)
    ensures s.pc.Submitting? && id in s.table.flows
  {}

  lemma WorkersStay(cfg: Config, labels: seq<Label>)
    requires cfg.Valid()
    ensures |Execute(cfg, labels).workers| == cfg.workerCount
  {
    hide Execute, ConnectionsOk, ConservedOk, WakeupOk, SleepOk, DeliveryOk;
    Reachable(cfg, labels);
  }

  /** The end of an event that wrote nothing. */
  lemma Concludes(cfg: Config, s: State, id: nat, k: nat)
    requires Loaded(s, id, k) && s.pc == Submitting(id, [], Testing, ReadOk, false)
    ensures var t := Step(cfg, s, Finish(0, WriteOk));
            && t.pc.Polling? && Loaded(t, id, k) && t.published == s.published
            && t.logs[id] == s.logs[id].(ending := t.logs[id].ending)
            && t.table.flows[id].nextResponse == s.table.flows[id].nextResponse
  {
    hide Items, Woke;
    assert s.table.connections[id].output[..0] == [] && s.logs[id].sent + [] == s.logs[id].sent;
  }

  /** An event that reads `chunk`. */
  function Reading(id: nat, input: seq<Byte>, chunk: seq<Byte>): Label {
    Event(id, false, true, false, chunk, ReadResult(ReadOk, Parse(input + chunk).messages, None))
  }

  lemma HearsChunk(cfg: Config, s: State, id: nat, k: nat, chunk: seq<Byte>)
    requires Loaded(s, id, k) && s.pc.Polling?
    requires var input := s.table.connections[id].input;
             ReadOutcome(cfg.maxInput, cfg.readBudget, input, chunk,
                         ReadResult(ReadOk, Parse(input + chunk).messages, None), Parse(input + chunk).rest)
    ensures var input := s.table.connections[id].input;
            var t := Step(cfg, s, Reading(id, input, chunk));
            && Loaded(t, id, k) && t.pc == Submitting(id, Parse(input + chunk).messages, Testing, ReadOk, false)
            && t.logs[id].received == s.logs[id].received + chunk && t.logs[id].sent == s.logs[id].sent
            && t.published == s.published && t.table.flows[id] == s.table.flows[id]
            && t.logs[id].parsed.messages == s.logs[id].parsed.messages + Parse(input + chunk).messages
  {
    hide Parse, ReadOutcome, Settle, Items, Woke;
    var f, old' := s.table.flows[id], Requests(s.logs[id]);
    var new' := Parse(s.table.connections[id].input + chunk).messages;
    assert (old' + new')[f.nextResponse..f.nextRequest] == old'[f.nextResponse..f.nextRequest];
  }

  /** Any part of a stream of fitting frames is a read. */
  lemma PartIsRead(cfg: Config, base: seq<Byte>, ms: seq<Message>, j: nat, n: nat)
    requires cfg.Valid() && AllEncodable(ms) && AllFit(ms, cfg.maxInput)
    requires j + n <= |EncodeAll(ms)| && 0 < n <= cfg.readBudget
    requires Parse(base).rest == [] && Parse(base).error.None?
    ensures var input, chunk := Parse(base + EncodeAll(ms)[..j]).rest, EncodeAll(ms)[j..j + n];
            && ReadOutcome(cfg.maxInput, cfg.readBudget, input, chunk,
                           ReadResult(ReadOk, Parse(input + chunk).messages, None), Parse(input + chunk).rest)
            && Parse(base + EncodeAll(ms)[..j]).error.None?
            && |Parse(base + EncodeAll(ms)[..j]).messages| + |Parse(input + chunk).messages|
               <= |Parse(base).messages| + |ms|
  {
    hide Parse, EncodeAll, AllEncodable;
    var u, chunk := EncodeAll(ms)[..j], EncodeAll(ms)[j..j + n];
    assert u + chunk == EncodeAll(ms)[..j + n];
    ParseAppend(base, u);
    assert [] + u == u;
    WellFormedPrefix(ms, u);
    ParseAppend(u, chunk);
    WellFormedPrefix(ms, u + chunk);
    var p, q := Parse(u), Parse(Parse(u).rest + chunk);
    assert forall i :: 0 <= i < |q.messages| ==> q.messages[i] == ms[|p.messages| + i];
    assert chunk != [];
  }

  /** The connection has received the first `j` bytes of the batch, and has submitted all that
      they complete. */
  ghost predicate HeardSome(s: State, id: nat, log: Log, ms: seq<Message>, j: nat) {
    && s.pc.Polling? && id in s.table.flows && id in s.logs && j <= |EncodeAll(ms)|
    && s.table.flows[id].nextResponse == |Requests(log)| <= |Requests(s.logs[id])|
    && Loaded(s, id, |Requests(s.logs[id])| - |Requests(log)|)
    && s.logs[id].received == log.received + EncodeAll(ms)[..j] && s.logs[id].sent == log.sent
  }

  /** The batch arrives over as many events as the read budget makes of it. */
  lemma {:induction false} Hears(cfg: Config, labels: seq<Label>, id: nat, log: Log, b: Burst, j: nat)
    returns (more: seq<Label>)
    requires cfg.Valid() && Servable(cfg, b) && HeardSome(Execute(cfg, labels), id, log, b.requests, j)
    requires log.parsed == Parse(log.received) && log.parsed.rest == [] && log.parsed.error.None?
    ensures HeardSome(Execute(cfg, more), id, log, b.requests, |EncodeAll(b.requests)|)
    ensures Execute(cfg, more).published == Execute(cfg, labels).published
    decreases |EncodeAll(b.requests)| - j
  {
    hide Execute, Inv, Step, Items, Parse, EncodeAll, Woke, ReadOutcome, Loaded, AllFit, ResponseStream;
    var s, stream := Execute(cfg, labels), EncodeAll(b.requests);
    if j == |stream| {
      more := labels;
    } else {
      var n := if |stream| - j <= cfg.readBudget then |stream| - j else cfg.readBudget;
      var next := HearsPiece(cfg, labels, id, log, b, j, n);
      more := Hears(cfg, next, id, log, b, j + n);
    }
  }

  lemma LoadedKeys(s: State, id: nat, k: nat)
    requires Loaded(s, id, k)
    ensures id in s.table.connections && id in s.table.flows && id in s.logs
    ensures s.table.flows[id].nextRequest == s.table.flows[id].nextResponse + k
  {}

  lemma HearsPiece(cfg: Config, labels: seq<Label>, id: nat, log: Log, b: Burst, j: nat, n: nat)
    returns (more: seq<Label>)
    requires cfg.Valid() && Servable(cfg, b) && HeardSome(Execute(cfg, labels), id, log, b.requests, j)
    requires log.parsed == Parse(log.received) && log.parsed.rest == [] && log.parsed.error.None?
    requires j + n <= |EncodeAll(b.requests)| && 0 < n <= cfg.readBudget
    ensures HeardSome(Execute(cfg, more), id, log, b.requests, j + n)
    ensures Execute(cfg, more).published == Execute(cfg, labels).published
  {
    hide Execute, Inv, Step, Items, Parse, EncodeAll, Woke, ReadOutcome, Loaded, AllFit, ResponseStream;
    var s, k := Execute(cfg, labels), |Requests(Execute(cfg, labels).logs[id])| - |Requests(log)|;
    var chunk := EncodeAll(b.requests)[j..j + n];
    Reachable(cfg, labels);
    WorkersStay(cfg, labels);
    LoadedKeys(s, id, k);
    TodoIsNext(cfg, s, id);
    PartIsRead(cfg, log.received, b.requests, j, n);
    var input := s.table.connections[id].input;
    HearsChunk(cfg, s, id, k, chunk);
    Then(cfg, labels, Reading(id, input, chunk));
    var heard := labels + [Reading(id, input, chunk)];
    var todo := Parse(input + chunk).messages;
    WorkersStay(cfg, heard);
    assert HasToSubmit(cfg, Execute(cfg, heard), id, k, |todo|);
    var counted := SubmitsAll(cfg, heard, id, k, |todo|);
    LoadedKeys(Execute(cfg, counted), id, k + |todo|);
    Concludes(cfg, Execute(cfg, counted), id, k + |todo|);
    Then(cfg, counted, Finish(0, WriteOk));
    more := counted + [Finish(0, WriteOk)];
    LoadedKeys(Execute(cfg, more), id, k + |todo|);
    assert EncodeAll(b.requests)[..j] + chunk == EncodeAll(b.requests)[..j + n];
    Associative(log.received, EncodeAll(b.requests)[..j], chunk);
  }

  // ------------------------------------------------------------ and are worked upon

  /** Nothing but the pool differs. */
  ghost predicate SameReactor(s: State, t: State) {
    && t.pc == s.pc && t.table == s.table && t.logs == s.logs && t.queueClosed == s.queueClosed
  }

  /** The first `j` workers have taken the first `j` items. */
  ghost predicate Taking(s: State, items: seq<WorkItem>, j: nat) {
    && j <= |items| <= |s.workers| && s.queue == items[j..]
    && (forall i :: 0 <= i < |s.workers| ==>
          s.workers[i] == if i < j then Holding(items[i]) else if i < |items| then Woken else Asleep)
  }

  lemma TakesOne(cfg: Config, s: State, items: seq<WorkItem>, j: nat)
    requires Taking(s, items, j) && j < |items|
    ensures var t := Step(cfg, s, Work(j));
            && Taking(t, items, j + 1) && SameReactor(s, t)
            && t.stored == s.stored && t.published == s.published && t.counter == s.counter
  {
    assert Step(cfg, s, Work(j)) == s.(workers := s.workers[j := Holding(items[j])], queue := items[j + 1..],
                                       popped := s.popped + [items[j]]);
  }

  lemma {:induction false} TakesAll(cfg: Config, labels: seq<Label>, items: seq<WorkItem>, j: nat)
    returns (more: seq<Label>)
    requires Taking(Execute(cfg, labels), items, j)
    ensures var s, t := Execute(cfg, labels), Execute(cfg, more);
            && Taking(t, items, |items|) && SameReactor(s, t)
            && t.stored == s.stored && t.published == s.published && t.counter == s.counter
    decreases |items| - j
  {
    hide Execute, Step, Taking;
    if j == |items| {
      more := labels;
    } else {
      TakingBound(Execute(cfg, labels), items, j);
      TakesOne(cfg, Execute(cfg, labels), items, j);
      Then(cfg, labels, Work(j));
      more := TakesAll(cfg, labels + [Work(j)], items, j + 1);
    }
  }

  lemma TakingBound(s: State, items: seq<WorkItem>, j: nat)
    requires Taking(s, items, j)
    ensures j <= |items|
  {}

  /** The workers in `done` have finished their items and the others hold theirs. */
  ghost predicate Finishing(s: State, items: seq<WorkItem>, done: seq<nat>) {
    && |items| <= |s.workers| && s.queue == []
    && (forall i :: 0 <= i < |s.workers| ==>
          s.workers[i] == if i in done then Ready else if i < |items| then Holding(items[i]) else Asleep)
  }

  lemma FinishesOne(cfg: Config, s: State, items: seq<WorkItem>, done: seq<nat>, w: nat)
    requires Finishing(s, items, done) && w < |items| && w !in done
    ensures var t := Step(cfg, Step(cfg, Step(cfg, s, Work(w)), Work(w)), Work(w));
            && Finishing(t, items, done + [w]) && SameReactor(s, t) && t.counter > 0
            && t.stored == s.stored + [Perform(cfg, items[w])] && t.published == s.published + [Perform(cfg, items[w])]
  {
    var r := Perform(cfg, items[w]);
    var a := Step(cfg, s, Work(w));
    assert a == s.(workers := s.workers[w := Computed(r)]);
    var b := Step(cfg, a, Work(w));
    assert b == a.(workers := a.workers[w := Announcing], stored := s.stored + [r], published := s.published + [r]);
    var t := Step(cfg, b, Work(w));
    assert t == b.(workers := b.workers[w := Ready], counter := Bumped(s.counter));
  }

  /** The items are finished in any order. */
  lemma {:induction false} FinishesAll(cfg: Config, labels: seq<Label>, items: seq<WorkItem>, order: seq<nat>, j: nat)
    returns (more: seq<Label>)
    requires Permutation(order, |items|) && j <= |order| && Finishing(Execute(cfg, labels), items, order[..j])
    ensures var s, t := Execute(cfg, labels), Execute(cfg, more);
            && Finishing(t, items, order) && SameReactor(s, t)
            && t.stored == s.stored + InOrder(cfg, items, order[j..])
            && t.published == s.published + InOrder(cfg, items, order[j..])
            && (j < |order| ==> t.counter > 0) && (j == |order| ==> t == s)
    decreases |order| - j
  {
    hide Execute, Step, Finishing, Perform;
    var s := Execute(cfg, labels);
    if j == |order| {
      more := labels;
      assert order[..j] == order && InOrder(cfg, items, order[j..]) == [];
    } else {
      var w := order[j];
      FinishesOne(cfg, s, items, order[..j], w);
      assert order[..j] + [w] == order[..j + 1];
      Then(cfg, labels, Work(w));
      Then(cfg, labels + [Work(w)], Work(w));
      Then(cfg, labels + [Work(w)] + [Work(w)], Work(w));
      more := FinishesAll(cfg, labels + [Work(w)] + [Work(w)] + [Work(w)], items, order, j + 1);
      var r, rest := Perform(cfg, items[w]), InOrder(cfg, items, order[j + 1..]);
      assert InOrder(cfg, items, order[j..]) == [r] + rest;
      Associative(s.stored, [r], rest);
      Associative(s.published, [r], rest);
    }
  }

  /** Of the first `n` workers the first `j` have gone to sleep again, and the others are ready. */
  ghost predicate Tiring(s: State, n: nat, j: nat) {
    && j <= n <= |s.workers| && s.queue == [] && !s.queueClosed
    && (forall i :: 0 <= i < |s.workers| ==> s.workers[i] == if j <= i < n then Ready else Asleep)
  }

  lemma TiresOne(cfg: Config, s: State, n: nat, j: nat)
    requires Tiring(s, n, j) && j < n
    ensures var t := Step(cfg, s, Work(j));
            Tiring(t, n, j + 1) && t == s.(workers := t.workers)
  {}

  lemma {:induction false} TiresAll(cfg: Config, labels: seq<Label>, n: nat, j: nat) returns (more: seq<Label>)
    requires Tiring(Execute(cfg, labels), n, j)
    ensures var s, t := Execute(cfg, labels), Execute(cfg, more);
            Tiring(t, n, n) && t == s.(workers := t.workers)
    decreases n - j
  {
    hide Execute, Step;
    if j == n {
      more := labels;
    } else {
      TiresOne(cfg, Execute(cfg, labels), n, j);
      Then(cfg, labels, Work(j));
      more := TiresAll(cfg, labels + [Work(j)], n, j + 1);
    }
  }

  /** The whole batch is taken, finished in its order and stored; the workers sleep again. */
  lemma WorksBatch(cfg: Config, labels: seq<Label>, items: seq<WorkItem>, order: seq<nat>) returns (more: seq<Label>)
    requires Permutation(order, |items|) && |items| > 0
    requires var s := Execute(cfg, labels);
             s.queue == items && !s.queueClosed && s.stored == [] && Woke(s.workers, |items|)
    ensures var s, t := Execute(cfg, labels), Execute(cfg, more);
            && SameReactor(s, t) && t.queue == [] && Woke(t.workers, 0) && t.counter > 0
            && t.stored == InOrder(cfg, items, order) && t.published == s.published + InOrder(cfg, items, order)
  {
    hide Execute, InOrder;
    assert items[0..] == items && order[..0] == [] && order[0..] == order;
    var taken := TakesAll(cfg, labels, items, 0);
    assert Finishing(Execute(cfg, taken), items, order[..0]);
    var done := FinishesAll(cfg, taken, items, order, 0);
    assert [] + InOrder(cfg, items, order) == InOrder(cfg, items, order);
    assert Tiring(Execute(cfg, done), |items|, 0);
    more := TiresAll(cfg, done, |items|, 0);
  }

  // ------------------------------------------------------ the results reach the reactor

  lemma Wakes(cfg: Config, s: State)
    requires s.pc.Polling? && s.counter > 0
    ensures Step(cfg, Step(cfg, Step(cfg, Step(cfg, s, Wake), DrainCounter), DrainCounter), Swap) ==
            s.(pc := Processing(s.stored), stored := [], counter := 0)
  {}

  /** The connection as it stays while results are processed. */
  ghost predicate Open(s: State, id: nat) {
    id in s.table.connections && id in s.table.flows && id in s.logs && !s.table.flows[id].closeAfterFlush
  }

  ghost predicate SamePoolState(s: State, t: State) {
    && t.queue == s.queue && t.workers == s.workers && t.stored == s.stored && t.counter == s.counter
    && t.queueClosed == s.queueClosed && t.published == s.published
  }

  lemma ProcessKeepsPool(cfg: Config, s: State)
    requires s.pc.Processing? && s.pc.batch != []
    ensures ProcessStep(cfg, s).pc == Processing(s.pc.batch[1..]) && SamePoolState(s, ProcessStep(cfg, s))
  {
    hide Complete;
  }

  /** A result of a connection with room for it neither cuts it off nor lets it go. */
  lemma ProcessKeepsOpen(cfg: Config, s: State, id: nat)
    requires s.pc.Processing? && s.pc.batch != [] && s.pc.batch[0].id == id
    requires Inv(cfg, s) && Inv(cfg, ProcessStep(cfg, s))
    requires Open(s, id) && Deliverable(cfg, s, id) && s.logs[id].ending.Open?
    ensures var t := ProcessStep(cfg, s);
            Open(t, id) && t.logs[id] == s.logs[id] && Deliverable(cfg, t, id)
  {
    hide Inv, ProcessStep, ResponseStream, CompleteOutcome, Unsendable;
    ResultIsQueued(cfg, s, id);
    ProcessAborts(cfg, s);
    ProcessStreams(cfg, s, id);
    NotLetGo(cfg, s, id);
    StillThere(cfg, ProcessStep(cfg, s), id);
    CompletionAdvances(cfg, s);
  }

  lemma NotLetGo(cfg: Config, s: State, id: nat)
    requires Inv(cfg, s) && s.pc.Processing? && s.pc.batch != [] && s.pc.batch[0].id == id && Open(s, id)
    ensures id in ProcessStep(cfg, s).logs && !ProcessStep(cfg, s).logs[id].ending.Drained?
  {
    hide Inv, Complete, CompleteOutcome, Put, Remove, UpdatedInterest;
    var r := s.pc.batch[0];
    var c, f, log := s.table.connections[id], s.table.flows[id], s.logs[id];
    ArrivingFirst(cfg, s);
    CompleteSettles(cfg.maxOutput, s.table, log, r);
    CompleteCount(cfg.maxOutput, c, f, log, r);
  }

  /** A connection whose log is open is there. */
  lemma StillThere(cfg: Config, s: State, id: nat)
    requires Inv(cfg, s) && id in s.logs
    ensures s.logs[id].ending.Open? <==> id in s.table.flows
    ensures id in s.table.flows ==> id in s.table.connections
  {
    hide ConservedOk, WakeupOk, SleepOk, QueueOk, DeliveryOk, LiveOk, EndedOk, Parse;
  }

  lemma {:induction false} ProcessesAll(cfg: Config, labels: seq<Label>, id: nat) returns (more: seq<Label>)
    requires cfg.Valid()
    requires var s := Execute(cfg, labels);
             && s.pc.Processing? && (forall i :: 0 <= i < |s.pc.batch| ==> s.pc.batch[i].id == id)
             && Open(s, id) && Deliverable(cfg, s, id)
    ensures var s, t := Execute(cfg, labels), Execute(cfg, more);
            t.pc.Polling? && SamePoolState(s, t) && Open(t, id) && t.logs[id] == s.logs[id]
    decreases |Execute(cfg, labels).pc.batch|
  {
    hide Execute, Inv, ProcessStep, Deliverable;
    var s := Execute(cfg, labels);
    Then(cfg, labels, Process);
    if s.pc.batch == [] {
      assert Step(cfg, s, Process) == s.(pc := Polling);
      more := labels + [Process];
    } else {
      ProcessIsStep(cfg, s, Process);
      hide Step;
      Reachable(cfg, labels);
      Reachable(cfg, labels + [Process]);
      StillThere(cfg, s, id);
      ProcessKeepsPool(cfg, s);
      ProcessKeepsOpen(cfg, s, id);
      more := ProcessesAll(cfg, labels + [Process], id);
    }
  }

  // --------------------------------------------------------- the responses go out

  /** The peer has taken the first `n` pending bytes of the connection, and that is all. */
  ghost predicate Took(s: State, t: State, id: nat, n: nat) {
    && s.pc.Polling? && t.pc.Polling? && SamePoolState(s, t) && Open(s, id) && Open(t, id)
    && var output := s.table.connections[id].output;
    && n <= |output| && t.table.connections[id].output == output[n..]
    && t.logs[id] == s.logs[id].(sent := s.logs[id].sent + output[..n], ending := t.logs[id].ending)
    && t.table.flows[id].nextResponse == s.table.flows[id].nextResponse
    && t.table.flows[id].nextRequest == s.table.flows[id].nextRequest
  }

  lemma TakesSome(cfg: Config, s: State, id: nat, n: nat)
    requires s.pc.Polling? && Open(s, id) && id != SHUTDOWN_SIGNAL_KEY
    requires var output := s.table.connections[id].output;
             n <= |output| && n <= cfg.writeBudget && (n == |output| || n == cfg.writeBudget)
    ensures Took(s, Step(cfg, Step(cfg, s, Writable(id)), Finish(n, WriteOk)), id, n)
  {
    var output := s.table.connections[id].output;
    assert output == output[..n] + output[n..];
    var a := Step(cfg, s, Writable(id));
    assert a == s.(pc := Submitting(id, [], Testing, ReadOk, true));
  }

  lemma TookTwice(s: State, t: State, u: State, id: nat, n: nat, m: nat)
    requires Took(s, t, id, n) && Took(t, u, id, m)
    ensures Took(s, u, id, n + m)
  {
    var output := s.table.connections[id].output;
    assert output[n..][m..] == output[n + m..];
    assert (s.logs[id].sent + output[..n]) + output[n..][..m] == s.logs[id].sent + output[..n + m];
  }

  /** Everything pending is sent, over as many events as the write budget makes of it. */
  lemma {:induction false} TakesEverything(cfg: Config, labels: seq<Label>, id: nat, size: nat)
    returns (more: seq<Label>)
    requires cfg.Valid() && PendingBytes(Execute(cfg, labels), id, size)
    ensures Took(Execute(cfg, labels), Execute(cfg, more), id, size)
    decreases size
  {
    hide Execute, Step, Took;
    var n := if size <= cfg.writeBudget then size else cfg.writeBudget;
    TakesSome(cfg, Execute(cfg, labels), id, n);
    Then(cfg, labels, Writable(id));
    Then(cfg, labels + [Writable(id)], Finish(n, WriteOk));
    var next := labels + [Writable(id)] + [Finish(n, WriteOk)];
    if n == size {
      more := next;
    } else {
      TookLeaves(Execute(cfg, labels), Execute(cfg, next), id, n);
      more := TakesEverything(cfg, next, id, size - n);
      TookTwice(Execute(cfg, labels), Execute(cfg, next), Execute(cfg, more), id, n, size - n);
    }
  }

  ghost predicate PendingBytes(s: State, id: nat, size: nat) {
    s.pc.Polling? && Open(s, id) && id != SHUTDOWN_SIGNAL_KEY && |s.table.connections[id].output| == size
  }

  lemma TookLeaves(s: State, t: State, id: nat, n: nat)
    requires Took(s, t, id, n)
    ensures t.pc.Polling? && Open(t, id) && |t.table.connections[id].output| == |s.table.connections[id].output| - n
  {}

  // ------------------------------------------------------------------ a batch in full

  /** Every response to the connection so far has a frame. */
  ghost predicate Answerable(cfg: Config, log: Log) {
    forall k :: 0 <= k < |Requests(log)| ==> Encodable(cfg.respond(Requests(log)[k]))
  }

  /** A connection at rest has nothing left over. */
  lemma RestedFacts(cfg: Config, s: State, id: nat)
    requires Inv(cfg, s) && Rested(s, id)
    ensures s.table.flows[id].nextResponse == |Requests(s.logs[id])|
    ensures s.logs[id].parsed == Parse(s.logs[id].received) && s.logs[id].parsed.error.None?
    ensures s.logs[id].sent == ResponseStream(cfg.respond, Requests(s.logs[id]))
    ensures s.logs[id].ending.Open?
  {
    hide ConnectionsOk, ConservedOk, WakeupOk, SleepOk, QueueOk, DeliveryOk, TableOk, LogsOk, ResponseStream, Items;
    LiveFacts(cfg, s.table, s.logs, s.pc, id);
    var f, log := s.table.flows[id], s.logs[id];
    assert Requests(log)[..f.nextResponse] == Requests(log);
    assert log.sent + [] == log.sent;
  }

  lemma StartsHearing(cfg: Config, s: State, id: nat, ms: seq<Message>)
    requires Inv(cfg, s) && Rested(s, id)
    ensures HeardSome(s, id, s.logs[id], ms, 0)
  {
    hide Inv, EncodeAll, Items;
    RestedFacts(cfg, s, id);
    assert s.logs[id].received + EncodeAll(ms)[..0] == s.logs[id].received;
  }

  /** The batch as it is queued once it has been heard. */
  lemma AllHeard(cfg: Config, s: State, id: nat, log: Log, ms: seq<Message>)
    requires Inv(cfg, s) && HeardSome(s, id, log, ms, |EncodeAll(ms)|) && AllEncodable(ms)
    requires log.parsed == Parse(log.received) && log.parsed.rest == [] && log.parsed.error.None?
    ensures Requests(s.logs[id]) == Requests(log) + ms && s.logs[id].parsed.rest == []
    ensures s.queue == Items(id, |Requests(log)|, ms) && Loaded(s, id, |ms|)
    ensures s.logs[id].received == log.received + EncodeAll(ms)
  {
    hide Inv, EncodeAll, Parse, Items;
    TodoIsNext(cfg, s, id);
    assert EncodeAll(ms)[..|EncodeAll(ms)|] == EncodeAll(ms);
    ParseAppend(log.received, EncodeAll(ms));
    ParseEncodeAll(ms, []);
    EmptyStream();
    assert [] + EncodeAll(ms) == EncodeAll(ms) + [] && ms + [] == ms;
    var n := |Requests(log)|;
    assert (Requests(log) + ms)[n..n + |ms|] == ms;
  }

  /** What the batch leaves to be sent is its responses, so there is room for them. */
  lemma BatchIsDeliverable(cfg: Config, s: State, id: nat, log: Log, ms: seq<Message>)
    requires id in s.table.flows && id in s.logs && Requests(s.logs[id]) == Requests(log) + ms
    requires s.logs[id].sent == log.sent == ResponseStream(cfg.respond, Requests(log))
    requires Answerable(cfg, log) && (forall i :: 0 <= i < |ms| ==> Encodable(cfg.respond(ms[i])))
    requires |ResponseStream(cfg.respond, ms)| <= cfg.maxOutput
    ensures Deliverable(cfg, s, id) && Answerable(cfg, s.logs[id])
  {
    hide Concat;
    ConcatAppend(Answer(cfg.respond), Requests(log), ms);
  }

  /** The batch has been heard and everything else is as it was. */
  ghost predicate Waiting(s: State, id: nat, log: Log, ms: seq<Message>) {
    && s.pc.Polling? && Loaded(s, id, |ms|) && s.queue == Items(id, |Requests(log)|, ms)
    && Requests(s.logs[id]) == Requests(log) + ms && s.logs[id].parsed.rest == []
    && s.logs[id].received == log.received + EncodeAll(ms) && s.logs[id].sent == log.sent
  }

  lemma HearsBatch(cfg: Config, labels: seq<Label>, id: nat, b: Burst) returns (more: seq<Label>)
    requires cfg.Valid() && Rested(Execute(cfg, labels), id) && Servable(cfg, b)
    ensures id in Execute(cfg, labels).logs
    ensures Waiting(Execute(cfg, more), id, Execute(cfg, labels).logs[id], b.requests)
    ensures Execute(cfg, more).published == Execute(cfg, labels).published
  {
    hide Execute, Inv, EncodeAll, Parse, Items, ResponseStream, AllFit, Loaded;
    var s := Execute(cfg, labels);
    Reachable(cfg, labels);
    LoadedKeys(s, id, 0);
    RestedFacts(cfg, s, id);
    StartsHearing(cfg, s, id, b.requests);
    more := Hears(cfg, labels, id, s.logs[id], b, 0);
    Reachable(cfg, more);
    AllHeard(cfg, Execute(cfg, more), id, s.logs[id], b.requests);
  }

  /** The reactor has queued all responses. */
  ghost predicate Answered(cfg: Config, s: State, id: nat, log: Log, ms: seq<Message>) {
    && s.pc.Polling? && Open(s, id) && id != SHUTDOWN_SIGNAL_KEY
    && s.queue == [] && Woke(s.workers, 0) && s.stored == [] && s.counter == 0 && !s.queueClosed
    && Requests(s.logs[id]) == Requests(log) + ms && s.logs[id].parsed.rest == []
    && s.logs[id].received == log.received + EncodeAll(ms) && s.logs[id].sent == log.sent
  }

  lemma AnswersBatch(cfg: Config, labels: seq<Label>, id: nat, log: Log, b: Burst) returns (more: seq<Label>)
    requires cfg.Valid() && Servable(cfg, b) && b.requests != [] && Waiting(Execute(cfg, labels), id, log, b.requests)
    requires log.sent == ResponseStream(cfg.respond, Requests(log)) && Answerable(cfg, log)
    ensures Answered(cfg, Execute(cfg, more), id, log, b.requests)
    ensures Execute(cfg, more).published ==
            Execute(cfg, labels).published + InOrder(cfg, Items(id, |Requests(log)|, b.requests), b.order)
  {
    hide Execute, EncodeAll, Items, ResponseStream, AllFit, Step, InOrder;
    var s, items := Execute(cfg, labels), Items(id, |Requests(log)|, b.requests);
    BatchIsDeliverable(cfg, s, id, log, b.requests);
    var worked := WorksBatch(cfg, labels, items, b.order);
    Wakes(cfg, Execute(cfg, worked));
    Then(cfg, worked, Wake);
    Then(cfg, worked + [Wake], DrainCounter);
    Then(cfg, worked + [Wake] + [DrainCounter], DrainCounter);
    Then(cfg, worked + [Wake] + [DrainCounter] + [DrainCounter], Swap);
    var swapped := worked + [Wake] + [DrainCounter] + [DrainCounter] + [Swap];
    OwnResults(cfg, id, |Requests(log)|, b.requests, b.order);
    assert Deliverable(cfg, Execute(cfg, swapped), id);
    more := ProcessesAll(cfg, swapped, id);
  }

  lemma OwnResults(cfg: Config, id: nat, first: nat, ms: seq<Message>, order: seq<nat>)
    requires forall i :: 0 <= i < |order| ==> order[i] < |ms|
    ensures var rs := InOrder(cfg, Items(id, first, ms), order);
            forall i :: 0 <= i < |rs| ==> rs[i].id == id
  {}

  lemma {:induction false} QuietIsEven(cfg: Config, labels: seq<Label>, id: nat)
    requires cfg.Valid() && Quiet(Execute(cfg, labels)) && id in Execute(cfg, labels).table.flows
    ensures var f := Execute(cfg, labels).table.flows[id];
            f.nextResponse == f.nextRequest
  {
    hide Execute, Parse, ResponseStream, Outstanding, ConnectionsOk, AuthenticOk, AccountedOk, TableOk, LogsOk,
         SleepOk, QueueOk, DeliveryOk;
    Reachable(cfg, labels);
    var s := Execute(cfg, labels);
    LiveFacts(cfg, s.table, s.logs, s.pc, id);
    NothingOutstanding(cfg, s);
    NothingAwaited(cfg, s.table.flows[id], s.logs[id], id);
  }

  /** A batch has been served: heard, answered and sent. */
  ghost predicate Served(cfg: Config, s: State, t: State, id: nat, b: Burst) {
    && Rested(s, id) && Rested(t, id) && Answerable(cfg, t.logs[id])
    && Permutation(b.order, |b.requests|)
    && Requests(t.logs[id]) == Requests(s.logs[id]) + b.requests
    && t.logs[id].received == s.logs[id].received + EncodeAll(b.requests)
    && t.logs[id].sent == s.logs[id].sent + ResponseStream(cfg.respond, b.requests)
    && t.published == s.published + InOrder(cfg, Items(id, |Requests(s.logs[id])|, b.requests), b.order)
  }

  lemma SendsBatch(cfg: Config, labels: seq<Label>, id: nat, log: Log, ms: seq<Message>) returns (more: seq<Label>)
    requires cfg.Valid() && Answered(cfg, Execute(cfg, labels), id, log, ms)
    requires log.sent == ResponseStream(cfg.respond, Requests(log))
    ensures var s, t := Execute(cfg, labels), Execute(cfg, more);
            && Rested(t, id) && t.published == s.published && id in s.logs
            && t.logs[id].sent == log.sent + ResponseStream(cfg.respond, ms)
            && t.logs[id].parsed == s.logs[id].parsed && t.logs[id].received == s.logs[id].received
  {
    hide Execute, EncodeAll, ResponseStream, Parse, Woke, Quiet, Took, Rested, Inv;
    var s := Execute(cfg, labels);
    AnsweredIsQuiet(cfg, s, id, log, ms);
    QuietIsEven(cfg, labels, id);
    QuietMeansAnswered(cfg, labels, id);
    Reachable(cfg, labels);
    TodoIsNext(cfg, s, id);
    var output := s.table.connections[id].output;
    MoreResponses(cfg, Requests(log), ms, output);
    more := TakesEverything(cfg, labels, id, |output|);
    RestsAgain(cfg, s, Execute(cfg, more), id, log, ms);
  }

  lemma MoreResponses(cfg: Config, requests: seq<Message>, ms: seq<Message>, output: seq<Byte>)
    requires ResponseStream(cfg.respond, requests) + output == ResponseStream(cfg.respond, requests + ms)
    ensures output == ResponseStream(cfg.respond, ms)
  {
    hide Concat;
    ConcatAppend(Answer(cfg.respond), requests, ms);
    SuffixOf(ResponseStream(cfg.respond, requests), output);
    SuffixOf(ResponseStream(cfg.respond, requests), ResponseStream(cfg.respond, ms));
  }

  /** A connection whose output has all been taken is at rest. */
  lemma RestsAgain(cfg: Config, s: State, t: State, id: nat, log: Log, ms: seq<Message>)
    requires Answered(cfg, s, id, log, ms) && Took(s, t, id, |s.table.connections[id].output|)
    requires s.table.flows[id].nextResponse == s.table.flows[id].nextRequest <= |Requests(s.logs[id])|
    ensures Rested(t, id) && t.published == s.published
    ensures t.logs[id].sent == log.sent + s.table.connections[id].output
    ensures t.logs[id].parsed == s.logs[id].parsed && t.logs[id].received == s.logs[id].received
  {
    hide EncodeAll, Items, Woke;
    var output := s.table.connections[id].output;
    assert output[|output|..] == [] && output[..|output|] == output;
    NoItems(id, s.table.flows[id].nextResponse, Requests(s.logs[id]));
  }

  lemma AnsweredIsQuiet(cfg: Config, s: State, id: nat, log: Log, ms: seq<Message>)
    requires Answered(cfg, s, id, log, ms)
    ensures Quiet(s)
  {}

  lemma NoItems(id: nat, first: nat, requests: seq<Message>)
    requires first <= |requests|
    ensures Items(id, first, requests[first..first]) == []
  {}

  lemma ServesBatch(cfg: Config, labels: seq<Label>, id: nat, b: Burst) returns (more: seq<Label>)
    requires cfg.Valid() && Rested(Execute(cfg, labels), id) && Servable(cfg, b)
    requires id in Execute(cfg, labels).logs && Answerable(cfg, Execute(cfg, labels).logs[id])
    ensures Served(cfg, Execute(cfg, labels), Execute(cfg, more), id, b)
  {
    hide Execute, EncodeAll, Items, ResponseStream, AllFit, Inv, InOrder, Loaded;
    var s := Execute(cfg, labels);
    Reachable(cfg, labels);
    LoadedKeys(s, id, 0);
    RestedFacts(cfg, s, id);
    if b.requests == [] {
      more := labels;
      NothingServed(cfg, s, id, b);
    } else {
      var heard := HearsBatch(cfg, labels, id, b);
      var answered := AnswersBatch(cfg, heard, id, s.logs[id], b);
      more := SendsBatch(cfg, answered, id, s.logs[id], b.requests);
      var t := Execute(cfg, more);
      LoadedKeys(t, id, 0);
      BothAnswerable(cfg, s.logs[id], t.logs[id], b.requests);
    }
  }

  lemma BothAnswerable(cfg: Config, log: Log, after: Log, ms: seq<Message>)
    requires Answerable(cfg, log) && Requests(after) == Requests(log) + ms
    requires forall i :: 0 <= i < |ms| ==> Encodable(cfg.respond(ms[i]))
    ensures Answerable(cfg, after)
  {}

  lemma NothingServed(cfg: Config, s: State, id: nat, b: Burst)
    requires Rested(s, id) && b.requests == [] && b.order == [] && Answerable(cfg, s.logs[id])
    ensures Served(cfg, s, s, id, b)
  {
    NoFrames();
    assert s.logs[id].received + [] == s.logs[id].received && s.logs[id].sent + [] == s.logs[id].sent;
    assert Requests(s.logs[id]) + [] == Requests(s.logs[id]) && s.published + [] == s.published;
  }

  // -------------------------------------------------------------- from end to end

  function RequestsOf(): Burst -> seq<Message> {
    (b: Burst) => b.requests
  }

  /** All requests of the batches, one after the other. */
  function AllRequests(batches: seq<Burst>): seq<Message> {
    Concat(RequestsOf(), batches)
  }

  ghost predicate AllServable(cfg: Config, batches: seq<Burst>) {
    forall i :: 0 <= i < |batches| ==> Servable(cfg, batches[i])
  }

  /** What the workers publish for the batches: each in its own order. */
  function PublishedFor(cfg: Config, id: nat, batches: seq<Burst>): seq<WorkResult>
    requires forall i :: 0 <= i < |batches| ==> Permutation(batches[i].order, |batches[i].requests|)
  {
    if batches == [] then []
    else
      var init, b := batches[..|batches| - 1], batches[|batches| - 1];
      assert Permutation(b.order, |b.requests|);
      PublishedFor(cfg, id, init) + InOrder(cfg, Items(id, |AllRequests(init)|, b.requests), b.order)
  }

  /** The batches have been served to a connection that was new in `s`. */
  ghost predicate ServedAll(cfg: Config, s: State, t: State, id: nat, batches: seq<Burst>) {
    && Rested(t, id) && Answerable(cfg, t.logs[id])
    && (forall i :: 0 <= i < |batches| ==> Permutation(batches[i].order, |batches[i].requests|))
    && Requests(t.logs[id]) == AllRequests(batches)
    && t.logs[id].received == EncodeAll(AllRequests(batches))
    && t.logs[id].sent == ResponseStream(cfg.respond, AllRequests(batches))
    && t.published == s.published + PublishedFor(cfg, id, batches)
  }

  lemma ServedOneMore(cfg: Config, s: State, t: State, u: State, id: nat, batches: seq<Burst>, b: Burst)
    requires ServedAll(cfg, s, t, id, batches) && Served(cfg, t, u, id, b)
    ensures ServedAll(cfg, s, u, id, batches + [b])
  {
    hide Concat, Rested, Items, InOrder, Frame;
    var all, more := AllRequests(batches), batches + [b];
    ConcatSnoc(RequestsOf(), batches, b);
    ConcatAppend(Frame, all, b.requests);
    ConcatAppend(Answer(cfg.respond), all, b.requests);
    assert more[..|more| - 1] == batches;
    Associative(s.published, PublishedFor(cfg, id, batches),
                InOrder(cfg, Items(id, |all|, b.requests), b.order));
  }

  lemma {:induction false} ServesAll(cfg: Config, start: State, labels: seq<Label>, id: nat, batches: seq<Burst>)
    returns (more: seq<Label>)
    requires cfg.Valid() && ServedAll(cfg, start, Execute(cfg, labels), id, []) && AllServable(cfg, batches)
    ensures ServedAll(cfg, start, Execute(cfg, more), id, batches)
    decreases |batches|
  {
    hide Execute, ServedAll, Servable, Served, Rested, Answerable;
    if batches == [] {
      more := labels;
    } else {
      var init, b := batches[..|batches| - 1], batches[|batches| - 1];
      var before := ServesAll(cfg, start, labels, id, init);
      ServedRests(cfg, start, Execute(cfg, before), id, init);
      more := ServesBatch(cfg, before, id, b);
      ServedOneMore(cfg, start, Execute(cfg, before), Execute(cfg, more), id, init, b);
      assert init + [b] == batches;
    }
  }

  lemma ServedRests(cfg: Config, s: State, t: State, id: nat, batches: seq<Burst>)
    requires ServedAll(cfg, s, t, id, batches)
    ensures Rested(t, id) && id in t.logs && Answerable(cfg, t.logs[id])
    ensures t.logs[id].received == EncodeAll(AllRequests(batches))
    ensures t.logs[id].sent == ResponseStream(cfg.respond, AllRequests(batches))
    ensures forall i :: 0 <= i < |batches| ==> Permutation(batches[i].order, |batches[i].requests|)
    ensures t.published == s.published + PublishedFor(cfg, id, batches)
  {}

  /** While the reactor runs, the queue is open. */
  lemma {:induction false} OpenWhileRunning(cfg: Config, labels: seq<Label>)
    ensures Running(Execute(cfg, labels)) ==> !Execute(cfg, labels).queueClosed
  {
    if labels != [] {
      hide Step;
      OpenWhileRunning(cfg, labels[..|labels| - 1]);
      ClosedOnlyAfter(cfg, Execute(cfg, labels[..|labels| - 1]), labels[|labels| - 1]);
    }
  }

  lemma ClosedOnlyAfter(cfg: Config, s: State, l: Label)
    ensures Running(Step(cfg, s, l)) ==> Running(s) && Step(cfg, s, l).queueClosed == s.queueClosed
  {
    hide ReactorStep, WorkerStep, WakeOne;
    if l.Work? {
      if l.worker < |s.workers| {
        WorkerKeepsOpen(cfg, s, l.worker);
      }
    } else {
      ReactorClosesLast(cfg, s, l);
    }
  }

  lemma WorkerKeepsOpen(cfg: Config, s: State, w: nat)
    requires w < |s.workers|
    ensures WorkerStep(cfg, s, w).queueClosed == s.queueClosed && WorkerStep(cfg, s, w).pc == s.pc
  {}

  lemma ReactorClosesLast(cfg: Config, s: State, l: Label)
    ensures var t := ReactorStep(cfg, s, l);
            Running(t) ==> Running(s) && t.queueClosed == s.queueClosed
  {
    hide ArriveStep, EventStep, SubmitStep, CountStep, FinishStep, ProcessStep, ShutdownStep, WakeOne;
    ReactorKeepsQueueOpen(cfg, s, l);
  }

  lemma ReactorKeepsQueueOpen(cfg: Config, s: State, l: Label)
    ensures s.pc.Polling? && l.Arrive? ==> ArriveStep(cfg, s, l.registers).queueClosed == s.queueClosed
    ensures s.pc.Polling? && l.Event? ==> EventStep(cfg, s, l).queueClosed == s.queueClosed
    ensures s.pc.Polling? && l.Shutdown? ==> ShutdownStep(s, l.order).queueClosed == s.queueClosed
    ensures s.pc.Processing? && s.pc.batch != [] ==> ProcessStep(cfg, s).queueClosed == s.queueClosed
    ensures s.pc.Submitting? && s.pc.id in s.table.connections && s.pc.id in s.table.flows && s.pc.id in s.logs ==>
              && (s.pc.todo != [] ==>
                    SubmitStep(cfg, s).queueClosed == s.queueClosed && CountStep(s).queueClosed == s.queueClosed)
              && (l.Finish? ==> FinishStep(cfg, s, l.sent, l.wrote).queueClosed == s.queueClosed)
  {
    hide Settle, Conclude, Complete, Accept, Parse, ReadOutcome, WriteOutcome, RemoveAll;
  }

  /** A quiet server has all its workers asleep and nothing stored. */
  lemma {:induction false} QuietFacts(cfg: Config, labels: seq<Label>)
    requires cfg.Valid() && Quiet(Execute(cfg, labels))
    ensures var s := Execute(cfg, labels);
            !s.queueClosed && s.stored == [] && Woke(s.workers, 0)
  {
    hide Execute, ConnectionsOk, ConservedOk, SleepOk, DeliveryOk;
    Reachable(cfg, labels);
    OpenWhileRunning(cfg, labels);
  }

  /** A client comes while the server is quiet. */
  lemma Joins(cfg: Config, s: State)
    requires Quiet(s) && !s.queueClosed && s.stored == [] && Woke(s.workers, 0)
    requires |s.table.connections| < cfg.maxConnections && s.table.nextId < SHUTDOWN_SIGNAL_KEY
    ensures ServedAll(cfg, s, Step(cfg, s, Arrive(true)), s.table.nextId, [])
  {
    hide Woke;
    NoFrames();
    assert s.published + [] == s.published;
  }

  /** A client that has been answered in full half-closes, and is let go. */
  lemma LeavesInPeace(cfg: Config, s: State, id: nat)
    requires cfg.Valid() && Inv(cfg, s) && Rested(s, id)
    ensures var close := Event(id, false, true, false, [], ReadResult(ReadPeerClosed, [], None));
            var t := Step(cfg, Step(cfg, s, close), Finish(0, WriteOk));
            && id in t.logs && t.logs[id] == s.logs[id].(ending := Drained) && t.published == s.published
            && id !in t.table.connections
  {
    hide Inv, Step, Items, Woke, ResponseStream, Parse;
    RestedFacts(cfg, s, id);
    TodoIsNext(cfg, s, id);
    SaysGoodbye(cfg, s, id);
    LetsGo(cfg, s.(pc := Submitting(id, [], Testing, ReadPeerClosed, false)), id);
  }

  lemma SaysGoodbye(cfg: Config, s: State, id: nat)
    requires cfg.Valid() && Rested(s, id) && s.table.connections[id].input == s.logs[id].parsed.rest
    requires s.logs[id].parsed.error.None?
    ensures Step(cfg, s, Event(id, false, true, false, [], ReadResult(ReadPeerClosed, [], None))) ==
            s.(pc := Submitting(id, [], Testing, ReadPeerClosed, false))
  {
    hide Items, Woke;
    EmptyStream();
    var c, f, log := s.table.connections[id], s.table.flows[id], s.logs[id];
    assert c.input + [] == [] && log.received + [] == log.received;
    assert log.parsed.messages + [] == log.parsed.messages;
    assert Put(s.table, id, c, f) == s.table && s.logs[id := log] == s.logs;
  }

  lemma LetsGo(cfg: Config, s: State, id: nat)
    requires Loaded(s, id, 0) && s.pc == Submitting(id, [], Testing, ReadPeerClosed, false)
    ensures var t := Step(cfg, s, Finish(0, WriteOk));
            && id in t.logs && t.logs[id] == s.logs[id].(ending := Drained) && t.published == s.published
            && id !in t.table.connections
  {
    hide Items, Woke;
    assert s.logs[id].sent + [] == s.logs[id].sent && s.table.connections[id].output[..0] == [];
  }

  /** The client has been sent every response, in the order of its requests, though the workers
      finished each batch in its own order; and it was let go. */
  ghost predicate ServedToTheEnd(cfg: Config, s: State, t: State, id: nat, batches: seq<Burst>) {
    && (forall i :: 0 <= i < |batches| ==> Permutation(batches[i].order, |batches[i].requests|))
    && id in t.logs && t.logs[id].ending.Drained? && id !in t.table.connections
    && t.logs[id].received == EncodeAll(AllRequests(batches))
    && t.logs[id].sent == ResponseStream(cfg.respond, AllRequests(batches))
    && t.published == s.published + PublishedFor(cfg, id, batches)
  }

  /** Whenever the server is quiet and has room for one more client, a client can come, send any
      number of batches of requests that are within the limits, have the workers finish each
      batch in any order whatever, read all responses in the order of its requests, and be let
      go after it half-closes. Neither the read nor the write budget matters. */
  lemma {:induction false} ServedInFull(cfg: Config, labels: seq<Label>, batches: seq<Burst>)
    returns (more: seq<Label>)
    requires cfg.Valid() && Quiet(Execute(cfg, labels)) && AllServable(cfg, batches)
    requires |Execute(cfg, labels).table.connections| < cfg.maxConnections
    requires Execute(cfg, labels).table.nextId < SHUTDOWN_SIGNAL_KEY
    ensures ServedToTheEnd(cfg, Execute(cfg, labels), Execute(cfg, more), Execute(cfg, labels).table.nextId, batches)
  {
    hide Execute, Inv, Step, Quiet, Rested, ServedAll, AllServable, EncodeAll, ResponseStream, AllRequests,
         PublishedFor, Answerable, Woke;
    var s := Execute(cfg, labels);
    var id := s.table.nextId;
    QuietFacts(cfg, labels);
    Joins(cfg, s);
    Then(cfg, labels, Arrive(true));
    var served := ServesAll(cfg, s, labels + [Arrive(true)], id, batches);
    ServedRests(cfg, s, Execute(cfg, served), id, batches);
    Reachable(cfg, served);
    LeavesInPeace(cfg, Execute(cfg, served), id);
    var close := Event(id, false, true, false, [], ReadResult(ReadPeerClosed, [], None));
    Then(cfg, served, close);
    Then(cfg, served + [close], Finish(0, WriteOk));
    more := served + [close] + [Finish(0, WriteOk)];
  }

  /** A server that has just started comes to rest at once. */
  lemma StartsQuiet(cfg: Config) returns (labels: seq<Label>)
    requires cfg.Valid()
    ensures var s := Execute(cfg, labels);
            Quiet(s) && s.table == EMPTY_TABLE && s.published == []
  {
    hide Step;
    assert Tiring(Execute(cfg, []), cfg.workerCount, 0);
    labels := TiresAll(cfg, [], cfg.workerCount, 0);
  }

  /** Under the default handler and limits, every request that has a frame can be served in full
      from the start, the largest included. */
  lemma {:induction false} EveryRequestCanBeServed(cfg: Config, m: Message) returns (labels: seq<Label>)
    requires cfg.Valid() && cfg.respond == HandleRequest && Encodable(m)
    requires cfg.maxInput >= DEFAULT_BUFFER_LIMIT && cfg.maxOutput >= DEFAULT_BUFFER_LIMIT
    ensures var s := Execute(cfg, labels);
            && 1 in s.logs && s.logs[1].ending.Drained?
            && s.logs[1].received == Frame(m) && s.logs[1].sent == Frame(HandleRequest(m))
  {
    hide Execute, HandleRequest, Header, Quiet, PublishedFor;
    var quiet := StartsQuiet(cfg);
    var b := Burst([m], [0]);
    ResponsesAreEncodable(m, _ => None);
    ConcatOne(Answer(cfg.respond), m);
    ConcatOne(Frame, m);
    ConcatOne(RequestsOf(), b);
    labels := ServedInFull(cfg, quiet, [b]);
  }
}
