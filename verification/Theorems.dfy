/** What the server guarantees in every run, for every interleaving of its threads and
    every behaviour of the network. */
module Theorems {
  import opened Codec
  import opened Streams
  import opened Connections
  import opened Reactors
  import opened Servers
  import opened Invariants
  import opened Preservation
  import opened Reachability
  import opened Handling
  import opened Blocking

  // ----------------------------------------------------------------- refinement

  /** In every run, what a connection was sent is a prefix of the responses to the requests
      received from it, in the order of the requests; while it lives, the sent and the
      pending bytes together are exactly the first responses; and if it was closed after a
      half-close it was sent all of them. */
  lemma {:induction false} SentIsPrefixOfResponses(cfg: Config, labels: seq<Label>, id: nat)
    requires cfg.Valid()
    ensures var s := Execute(cfg, labels);
            id in s.logs ==>
              var log := s.logs[id];
              var all := ResponseStream(cfg.respond, Parse(log.received).messages);
              && log.sent <= all
              && (log.ending.Drained? ==> log.sent == all && Parse(log.received).error.None?)
              && (log.ending.Open? ==>
                    && id in s.table.flows && id in s.table.connections
                    && s.table.flows[id].nextResponse <= |Parse(log.received).messages|
                    && log.sent + s.table.connections[id].output ==
                       ResponseStream(cfg.respond, Parse(log.received).messages[..s.table.flows[id].nextResponse]))
  {
    hide Parse, Execute, ResponseStream, ConnectionsOk, ConservedOk, TableOk, LogsOk, WakeupOk, SleepOk,
         QueueOk, DeliveryOk;
    Reachable(cfg, labels);
    var s := Execute(cfg, labels);
    if id in s.logs {
      LogFacts(cfg, s.table, s.logs, s.pc, id);
      if id in s.table.flows {
        LiveFacts(cfg, s.table, s.logs, s.pc, id);
        var c, f, log := s.table.connections[id], s.table.flows[id], s.logs[id];
        ResponseStreamMonotone(cfg.respond, Requests(log)[..f.nextResponse], Requests(log));
      }
    }
  }

  lemma LogFacts(cfg: Config, t: Table, logs: map<nat, Log>, pc: Pc, id: nat)
    requires ConnectionsOk(cfg, t, logs, pc) && id in logs
    ensures logs[id].parsed == Parse(logs[id].received)
    ensures logs[id].ending.Open? <==> id in t.flows
    ensures id !in t.flows ==> EndedOk(cfg, logs[id])
  {
    hide Parse, LiveOk, TableOk, EndedOk;
  }

  /** The end-to-end refinement. With the default handler, whatever the interleaving of
      reactor and workers and however `recv` and `send` cut the streams, a connection is
      sent a prefix of what the blocking server sends for the same input, and for every
      longer input; a connection that ends by draining is sent exactly that. */
  lemma {:induction false} EpollRefinesBlocking(cfg: Config, labels: seq<Label>, id: nat, later: seq<Byte>)
    requires cfg.Valid() && cfg.respond == HandleRequest
    ensures var s := Execute(cfg, labels);
            id in s.logs ==>
              && s.logs[id].sent <= BlockingOutput(s.logs[id].received + later)
              && (s.logs[id].ending.Drained? ==> s.logs[id].sent == BlockingOutput(s.logs[id].received))
  {
    hide Execute, Parse, ResponseStream, HandleRequest;
    SentIsPrefixOfResponses(cfg, labels, id);
    var s := Execute(cfg, labels);
    if id in s.logs {
      BlockingOutputMonotone(s.logs[id].received, later);
    }
  }

  /** A client that sends only well-formed frames that fit in the input buffer never has a
      read rejected, in any run: every request it completes is decoded, whatever else goes
      on in the server and however its bytes arrive. */
  lemma {:induction false} FittingClientIsHeard(cfg: Config, labels: seq<Label>, id: nat, ms: seq<Message>)
    requires cfg.Valid() && id in Execute(cfg, labels).logs
    requires AllEncodable(ms) && Execute(cfg, labels).logs[id].received <= EncodeAll(ms)
    requires AllFit(ms, cfg.maxInput)
    ensures var s := Execute(cfg, labels);
            && !(s.pc.Submitting? && s.pc.id == id && s.pc.status.ReadProtocolError?)
            && Requests(s.logs[id]) <= ms
  {
    hide Execute, Parse, EncodeAll, ConnectionsOk, ConservedOk, WakeupOk, SleepOk, QueueOk, DeliveryOk;
    Reachable(cfg, labels);
    var s := Execute(cfg, labels);
    LogFacts(cfg, s.table, s.logs, s.pc, id);
    PrefixOfFrames(ms, s.logs[id].received, cfg.maxInput);
  }

  // --------------------------------------------------------------- conservation

  /** How often a result is in each of the five places it can be. */
  function Places(cfg: Config, s: State, r: WorkResult): nat {
    multiset(Results(cfg, s.queue))[r] + multiset(Hands(cfg, s.workers))[r] + multiset(s.stored)[r]
    + multiset(Batch(s.pc))[r]
    + if r.id in s.table.flows && r.sequence in s.table.flows[r.id].completed
         && s.table.flows[r.id].completed[r.sequence] == r.response then 1 else 0
  }

  /** The result the connection awaits or holds for sequence number `k`. */
  ghost predicate Awaited(cfg: Config, s: State, r: WorkResult)
    requires r.id in s.table.flows && r.id in s.logs
  {
    var f, log := s.table.flows[r.id], s.logs[r.id];
    && f.nextResponse <= r.sequence < f.nextRequest + Ahead(s.pc, r.id)
    && r.sequence < |Requests(log)| && r.response == cfg.respond(Requests(log)[r.sequence])
  }

  /** Conservation. For a live connection, the right answer to each request from the next
      response on is in exactly one place: queue, a worker's hands, completion deque,
      swapped batch or reorder map; and nothing else for the connection is anywhere. A
      request answered before is nowhere. Work for connections that are gone is never
      duplicated either. */
  lemma {:induction false} Conservation(cfg: Config, labels: seq<Label>, r: WorkResult)
    requires cfg.Valid()
    ensures var s := Execute(cfg, labels);
            && (r.id in s.table.flows ==>
                  r.id in s.logs && Places(cfg, s, r) == if Awaited(cfg, s, r) then 1 else 0)
            && Places(cfg, s, r) <= 1
  {
    hide Execute, Hands, Results, StreamOk, TableOk, LogsOk, EndedOk;
    Reachable(cfg, labels);
    var s := Execute(cfg, labels);
    var out := Outstanding(cfg, s);
    assert out[r] == multiset(Results(cfg, s.queue))[r] + multiset(Hands(cfg, s.workers))[r]
                     + multiset(s.stored)[r] + multiset(Batch(s.pc))[r];
    if r.id in s.table.flows {
      LiveFacts(cfg, s.table, s.logs, s.pc, r.id);
      OnePlace(cfg, s.table.flows[r.id], s.logs, Ahead(s.pc, r.id), r, out);
    }
  }

  lemma OnePlace(cfg: Config, f: Flow, logs: map<nat, Log>, ahead: nat, r: WorkResult, out: multiset<WorkResult>)
    requires AuthenticOk(cfg, logs, out) && r.id in logs && AccountedOk(cfg, f, logs[r.id], ahead, r.id, out)
    requires CompletedOk(cfg, f, logs[r.id], f.nextResponse + 1)
    ensures var log := logs[r.id];
            var awaited := && f.nextResponse <= r.sequence < f.nextRequest + ahead
                           && r.sequence < |Requests(log)| && r.response == cfg.respond(Requests(log)[r.sequence]);
            var held := r.sequence in f.completed && f.completed[r.sequence] == r.response;
            out[r] + (if held then 1 else 0) == if awaited then 1 else 0
  {
    var log := logs[r.id];
    if r in out {
      assert r == Expected(cfg, log, r.id, r.sequence);
    }
    if f.nextResponse <= r.sequence < f.nextRequest + ahead {
      assert r.sequence in f.completed <==> Expected(cfg, log, r.id, r.sequence) !in out;
    }
  }

  // -------------------------------------------------------------------- wake-ups

  /** No lost wake-up. Every write of the counter, by a worker or by a request to stop, adds one
      to it unless it is at the largest value of an eventfd. */
  lemma {:induction false} NoLostWakeup(cfg: Config, labels: seq<Label>)
    requires cfg.Valid()
    ensures var s := Execute(cfg, labels);
            && s.counter <= 0xFFFF_FFFF_FFFF_FFFE
            && var next := if s.counter < 0xFFFF_FFFF_FFFF_FFFE then s.counter + 1 else s.counter;
            && Step(cfg, s, RequestStop).counter == next > 0
            && (forall w :: 0 <= w < |s.workers| && s.workers[w].Announcing? ==>
                  Step(cfg, s, Work(w)).counter == next)
            && (s.stored != [] ==>
                  || s.counter > 0
                  || (exists w :: 0 <= w < |s.workers| && s.workers[w].Announcing?)
                  || s.pc.Draining? || s.pc.Swapping?)
  {
    hide Execute, ConnectionsOk, ConservedOk;
    Reachable(cfg, labels);
  }

  /** No worker sleeps through work: if one sleeps while the queue holds items, as many
      notifications are on their way or woken workers about to look as there are items; if
      one sleeps on a closed queue, the broadcast is on its way. */
  lemma {:induction false} NoWorkerOversleeps(cfg: Config, labels: seq<Label>)
    requires cfg.Valid()
    ensures var s := Execute(cfg, labels);
            SomeoneSleeps(s.workers) ==>
              && |s.queue| <= Owed(s.pc) + WokenCount(s.workers)
              && (s.queue != [] && Owed(s.pc) == 0 ==> exists w :: 0 <= w < |s.workers| && s.workers[w].Woken?)
              && (s.queueClosed ==> s.allOwed)
  {
    hide Execute, ConnectionsOk, ConservedOk, WokenCount;
    Reachable(cfg, labels);
    var s := Execute(cfg, labels);
    if WokenCount(s.workers) > 0 {
      var w := SomeWoken(s.workers);
    }
  }

  lemma {:induction false} SomeWoken(workers: seq<Worker>) returns (w: nat)
    requires WokenCount(workers) > 0
    ensures w < |workers| && workers[w].Woken?
  {
    var n := |workers| - 1;
    if workers[n].Woken? {
      w := n;
    } else {
      w := SomeWoken(workers[..n]);
    }
  }

  ghost predicate Idle(w: Worker) {
    w.Ready? || w.Asleep? || w.Woken? || w.Exited?
  }

  lemma {:induction false} NothingInHand(cfg: Config, workers: seq<Worker>)
    requires forall w :: 0 <= w < |workers| ==> Idle(workers[w])
    ensures Hands(cfg, workers) == []
  {
    if workers != [] {
      NothingInHand(cfg, workers[..|workers| - 1]);
    }
  }

  /** Nothing is forgotten. When the reactor waits, the counter is zero, the queue is empty
      and the workers are idle, every request received from a live connection has been
      answered: its bytes sent and pending are the responses to all of them. */
  lemma {:induction false} QuietMeansAnswered(cfg: Config, labels: seq<Label>, id: nat)
    requires cfg.Valid()
    requires var s := Execute(cfg, labels);
             && s.pc.Polling? && s.counter == 0 && s.queue == []
             && (forall w :: 0 <= w < |s.workers| ==> Idle(s.workers[w]))
             && id in s.table.flows
    ensures var s := Execute(cfg, labels);
            && id in s.table.connections && id in s.logs
            && s.table.flows[id].completed == map[]
            && s.logs[id].sent + s.table.connections[id].output ==
               ResponseStream(cfg.respond, Parse(s.logs[id].received).messages)
  {
    hide Execute, Parse, ResponseStream, Outstanding, ConnectionsOk, AuthenticOk, AccountedOk, TableOk, LogsOk,
         SleepOk, QueueOk, DeliveryOk;
    Reachable(cfg, labels);
    var s := Execute(cfg, labels);
    LiveFacts(cfg, s.table, s.logs, s.pc, id);
    var f, log := s.table.flows[id], s.logs[id];
    assert s.stored == [];
    NothingOutstanding(cfg, s);
    NothingAwaited(cfg, f, log, id);
    assert Requests(log)[..f.nextResponse] == Requests(log);
  }

  lemma NothingOutstanding(cfg: Config, s: State)
    requires s.pc.Polling? && s.queue == [] && s.stored == []
    requires forall w :: 0 <= w < |s.workers| ==> Idle(s.workers[w])
    ensures Outstanding(cfg, s) == multiset{}
  {
    hide Hands;
    NothingInHand(cfg, s.workers);
  }

  lemma NothingAwaited(cfg: Config, f: Flow, log: Log, id: nat)
    requires AccountedOk(cfg, f, log, 0, id, multiset{}) && CompletedOk(cfg, f, log, f.nextResponse + 1)
    requires f.nextResponse <= f.nextRequest
    ensures f.nextResponse == f.nextRequest && f.completed == map[]
  {
    assert f.nextResponse < f.nextRequest ==> f.nextResponse in f.completed;
    assert forall k :: k !in f.completed;
  }

  // ---------------------------------------------------- interest, stuck connections

  /** The interest set agrees with the connections in every reachable state: a live
      connection is registered unless it is half-closed with nothing to write, for reading
      exactly until its half-close and for writing exactly while output is pending. An
      unregistered one is not stuck: the response it waits for is under way. */
  lemma {:induction false} InterestAgrees(cfg: Config, labels: seq<Label>, id: nat)
    requires cfg.Valid()
    ensures var s := Execute(cfg, labels);
            && s.table.connections.Keys == s.table.flows.Keys
            && (id in s.table.epoll ==> id in s.table.flows)
            && (id in s.table.flows ==>
                  var c, f := s.table.connections[id], s.table.flows[id];
                  && (f.registered <==> id in s.table.epoll)
                  && (id in s.table.epoll ==> s.table.epoll[id] == Interest(!f.closeAfterFlush, c.output != []))
                  && (id !in s.table.epoll ==>
                        && f.closeAfterFlush && c.output == [] && id in s.logs
                        && f.nextResponse < f.nextRequest <= |Requests(s.logs[id])|
                        && Expected(cfg, s.logs[id], id, f.nextResponse) in Outstanding(cfg, s)))
  {
    hide Execute, Parse, StreamOk, Outstanding;
    Reachable(cfg, labels);
    var s := Execute(cfg, labels);
    if id in s.table.flows {
      LiveFacts(cfg, s.table, s.logs, s.pc, id);
      assert InterestOk(s.table, id);
      hide TableOk, LogsOk, EndedOk;
      var f, log := s.table.flows[id], s.logs[id];
      assert AccountedOk(cfg, f, log, Ahead(s.pc, id), id, Outstanding(cfg, s));
      assert f.nextResponse !in f.completed;
    }
  }

  /** Closing all connections comes to an end from every reachable state: there is an order in
      which the flows run out, and whichever it is, all three maps are empty then. */
  lemma {:induction false} ClosingEnds(cfg: Config, labels: seq<Label>) returns (order: seq<nat>)
    requires cfg.Valid() && Execute(cfg, labels).pc.Polling?
    ensures var s := Execute(cfg, labels);
            && Step(cfg, s, Shutdown(order)).pc.Stopped?
            && forall any :: Step(cfg, s, Shutdown(any)) == s ||
                             Step(cfg, s, Shutdown(any)).table == EMPTY_TABLE.(nextId := s.table.nextId)
  {
    hide Execute, ConnectionsOk, ConservedOk, WakeupOk, SleepOk, QueueOk, DeliveryOk, LogsOk, RemoveAll, Coherent;
    Reachable(cfg, labels);
    var s := Execute(cfg, labels);
    KeysAgree(cfg, s);
    order := ClosingOrder(s.table);
    forall any ensures RemoveAll(s.table, any).flows == map[] ==>
                         RemoveAll(s.table, any) == EMPTY_TABLE.(nextId := s.table.nextId)
    {
      ClosingEmpties(s.table, any);
    }
  }

  // -------------------------------------------------------------------- resources

  lemma {:induction false} FewKeys<T>(m: map<nat, T>, low: nat, high: nat)
    requires forall k :: k in m ==> low <= k < high
    requires low <= high
    ensures |m| <= high - low
    decreases high - low
  {
    if low == high {
      assert m == map[];
    } else {
      var n := m - {high - 1};
      assert n.Keys == m.Keys - {high - 1};
      FewKeys(n, low, high - 1);
    }
  }

  /** Resource bounds in every reachable state. */
  lemma {:induction false} ResourceBounds(cfg: Config, labels: seq<Label>, id: nat)
    requires cfg.Valid()
    ensures var s := Execute(cfg, labels);
            && |s.table.connections| <= cfg.maxConnections
            && |s.queue| <= cfg.queueCapacity
            && (id in s.table.flows ==>
                  && id in s.table.connections
                  && var c, f := s.table.connections[id], s.table.flows[id];
                  && f.nextResponse <= f.nextRequest <= f.nextResponse + cfg.maxInFlight
                  && (forall k :: k in f.completed ==> f.nextResponse < k < f.nextRequest)
                  && |f.completed| <= cfg.maxInFlight - 1
                  && |c.input| <= cfg.maxInput && |c.output| <= cfg.maxOutput)
  {
    hide Execute, ConnectionsOk, ConservedOk, WakeupOk, SleepOk, DeliveryOk;
    Reachable(cfg, labels);
    var s := Execute(cfg, labels);
    KeysAgree(cfg, s);
    if id in s.table.flows {
      LiveBounds(cfg, s.table, s.logs, s.pc, id);
    }
  }

  lemma LiveBounds(cfg: Config, t: Table, logs: map<nat, Log>, pc: Pc, id: nat)
    requires ConnectionsOk(cfg, t, logs, pc) && id in t.flows && id in t.connections && cfg.Valid()
    ensures var c, f := t.connections[id], t.flows[id];
            && f.nextResponse <= f.nextRequest <= f.nextResponse + cfg.maxInFlight
            && (forall k :: k in f.completed ==> f.nextResponse < k < f.nextRequest)
            && |f.completed| <= cfg.maxInFlight - 1
            && |c.input| <= cfg.maxInput && |c.output| <= cfg.maxOutput
  {
    hide ConnectionsOk, ResponseStream, TableOk, LogsOk;
    LiveFacts(cfg, t, logs, pc, id);
    ReorderBound(cfg, t.flows[id], logs[id]);
  }

  lemma ReorderBound(cfg: Config, f: Flow, log: Log)
    requires CompletedOk(cfg, f, log, f.nextResponse + 1)
    requires f.nextResponse <= f.nextRequest <= f.nextResponse + cfg.maxInFlight && cfg.maxInFlight > 0
    ensures |f.completed| <= cfg.maxInFlight - 1
    ensures |f.completed| == 0 || |f.completed| < f.nextRequest - f.nextResponse
  {
    if f.nextResponse == f.nextRequest {
      assert forall k :: k !in f.completed;
      assert f.completed == map[];
    } else {
      FewKeys(f.completed, f.nextResponse + 1, f.nextRequest);
    }
  }

  // ------------------------------------------------------------------ worker pool

  /** First in, first out; and once every worker has left, each item ever accepted was
      answered exactly once. */
  lemma {:induction false} PoolDeliversExactlyOnce(cfg: Config, labels: seq<Label>)
    requires cfg.Valid()
    ensures var s := Execute(cfg, labels);
            && s.accepted == s.popped + s.queue
            && multiset(Results(cfg, s.popped)) == multiset(s.published) + multiset(Hands(cfg, s.workers))
            && ((forall w :: 0 <= w < |s.workers| ==> s.workers[w].Exited?) ==>
                  multiset(s.published) == multiset(Results(cfg, s.accepted)) && s.queueClosed)
  {
    hide Execute, ConnectionsOk, ConservedOk, Hands, Results;
    Reachable(cfg, labels);
    var s := Execute(cfg, labels);
    if forall w :: 0 <= w < |s.workers| ==> s.workers[w].Exited? {
      NothingInHand(cfg, s.workers);
      assert s.workers[0].Exited?;
      assert s.popped + s.queue == s.popped;
    }
  }
}
