/** Every step of the reactor keeps the invariants. */
module Preservation {
  import opened Codec
  import opened Streams
  import opened Connections
  import opened Reactors
  import opened Servers
  import opened Invariants

  // ---------------------------------------------------------------- flushing

  /** The responses of the run are the answers to the next requests. */
  lemma {:induction false} RunAnswers(cfg: Config, f: Flow, log: Log, end: nat)
    requires CompletedOk(cfg, f, log, f.nextResponse) && f.nextResponse <= f.nextRequest && f.nextResponse <= end
    requires forall k :: f.nextResponse <= k < end ==> k in f.completed
    ensures end <= f.nextRequest
    ensures ResponseStream(cfg.respond, Requests(log)[..f.nextResponse]) + EncodeAll(ReadyRun(f, end))
         == ResponseStream(cfg.respond, Requests(log)[..end])
  {
    hide ResponseStream, EncodeAll, Frame;
    var first := ResponseStream(cfg.respond, Requests(log)[..f.nextResponse]);
    if end == f.nextResponse {
      NoFrames();
      assert ReadyRun(f, end) == [] && first + [] == first;
    } else {
      var k, run := end - 1, ReadyRun(f, end - 1);
      RunAnswers(cfg, f, log, k);
      assert k in f.completed;
      var request := Requests(log)[k];
      assert ReadyRun(f, end) == run + [f.completed[k]];
      assert Requests(log)[..end] == Requests(log)[..k] + [request];
      ResponseStreamSnoc(cfg.respond, Requests(log)[..k], request);
      LastFrame(run, f.completed[k]);
      Associative(first, EncodeAll(run), Frame(f.completed[k]));
    }
  }

  lemma LastFrame(ms: seq<Message>, m: Message)
    ensures EncodeAll(ms + [m]) == EncodeAll(ms) + Frame(m)
  {
    hide Frame;
    ConcatSnoc(Frame, ms, m);
  }

  /** Flushing queues the responses to the next requests, in order and unchanged. */
  lemma {:induction false} FlushLoopOk(cfg: Config, c: ConnState, f: Flow, log: Log)
    requires StreamOk(cfg, c, f, log) && CompletedOk(cfg, f, log, f.nextResponse)
    requires |c.output| <= cfg.maxOutput
    ensures var r := FlushLoop(cfg.maxOutput, c, f);
            && StreamOk(cfg, r.connection, r.flow, log)
            && r.connection.input == c.input && |r.connection.output| <= cfg.maxOutput
            && Flushed(f, r.flow)
            && (r.ok ==> r.flow.nextResponse !in r.flow.completed)
  {
    hide FlushLoop, Queued, ResponseStream, EncodeAll, CompletedOk;
    var r := FlushLoop(cfg.maxOutput, c, f);
    FlushLoopRun(cfg.maxOutput, c, f);
    RunAnswers(cfg, f, log, r.flow.nextResponse);
    Associative(log.sent, c.output, EncodeAll(ReadyRun(f, r.flow.nextResponse)));
  }

  // ---------------------------------------------------------------- settling

  /** The table after settling: `entry` is what is left of the connection. */
  ghost predicate SettledAs(t: Table, u: Table, id: nat, entry: Option<(ConnState, Flow)>, interest: Option<Interest>) {
    && u.nextId == t.nextId
    && u.connections == (if entry.Some? then t.connections[id := entry.value.0] else t.connections - {id})
    && u.flows == (if entry.Some? then t.flows[id := entry.value.1] else t.flows - {id})
    && u.epoll == (if interest.Some? then t.epoll[id := interest.value] else t.epoll - {id})
  }

  function Kept(c: ConnState, f: Flow): (ConnState, Flow) {
    (c, f.(registered := WantedInterest(c, f).Some?))
  }

  lemma RemoveResult(t: Table, id: nat, c: ConnState, f: Flow)
    requires id in t.connections && (f.registered <==> id in t.epoll)
    ensures SettledAs(t, Remove(Put(t, id, c, f), id), id, None, None)
  {
    assert t.connections[id := c] - {id} == t.connections - {id};
    assert t.flows[id := f] - {id} == t.flows - {id};
    if id !in t.epoll {
      assert t.epoll - {id} == t.epoll;
    }
  }

  lemma UpdateResult(t: Table, id: nat, c: ConnState, f: Flow)
    requires id in t.connections && (f.registered <==> id in t.epoll)
    ensures SettledAs(t, UpdatedInterest(Put(t, id, c, f), id), id, Some(Kept(c, f)), WantedInterest(c, f))
  {
    if id !in t.epoll {
      assert t.epoll - {id} == t.epoll;
    }
  }

  lemma SettleResult(cfg: Config, t: Table, id: nat, c: ConnState, f: Flow, abort: bool)
    requires TableOk(cfg, t) && id in t.flows && f.registered == t.flows[id].registered
    ensures var (u, e) := Settle(t, id, c, f, abort);
            && e == (if abort then Aborted else if ShouldClose(c, f) then Drained else Open)
            && (e.Open? ==> SettledAs(t, u, id, Some(Kept(c, f)), WantedInterest(c, f)))
            && (!e.Open? ==> SettledAs(t, u, id, None, None))
  {
    hide SettledAs, Remove, UpdatedInterest;
    assert InterestOk(t, id);
    RemoveResult(t, id, c, f);
    UpdateResult(t, id, c, f);
  }

  lemma RemovedTable(cfg: Config, t: Table, u: Table, id: nat)
    requires TableOk(cfg, t) && id in t.flows && SettledAs(t, u, id, None, None)
    ensures TableOk(cfg, u)
  {
    hide CoherentBut, Coherent;
    CoherentIsEnough(t, id);
    RemoveCoheres(t, id);
    assert u == Remove(t, id) by { RemovedIs(t, u, id); }
    assert u.connections.Keys == t.connections.Keys - {id};
    Fewer(u.connections.Keys, t.connections.Keys);
  }

  lemma RemovedIs(t: Table, u: Table, id: nat)
    requires Coherent(t) && id in t.flows && SettledAs(t, u, id, None, None)
    ensures u == Remove(t, id)
  {
    assert InterestOk(t, id);
    if id !in t.epoll {
      assert t.epoll - {id} == t.epoll;
    }
  }

  lemma KeptTable(cfg: Config, t: Table, u: Table, id: nat, c: ConnState, f: Flow)
    requires TableOk(cfg, t) && id in t.flows
    requires SettledAs(t, u, id, Some(Kept(c, f)), WantedInterest(c, f))
    ensures TableOk(cfg, u)
  {
    assert u.connections.Keys == t.connections.Keys && u.flows.Keys == t.flows.Keys;
    assert |u.connections| == |u.connections.Keys| == |t.connections|;
    forall i | i in u.flows ensures InterestOk(u, i) {
      assert InterestOk(t, i);
    }
  }

  lemma Fewer<T>(a: set<T>, b: set<T>)
    requires a <= b
    ensures |a| <= |b|
  {
    assert b == a + (b - a);
  }

  lemma EndsOk(cfg: Config, c: ConnState, f: Flow, log: Log, drained: bool)
    requires StreamOk(cfg, c, f, log)
    requires drained ==> ConnOk(cfg, c, f, log, []) && ShouldClose(c, f) && log.parsed.error.None?
    ensures EndedOk(cfg, log.(ending := if drained then Drained else Aborted))
  {
    hide ResponseStream;
    ResponseStreamMonotone(cfg.respond, Requests(log)[..f.nextResponse], Requests(log));
    assert log.sent <= log.sent + c.output;
    if drained {
      assert Requests(log)[..f.nextResponse] == Requests(log);
      assert log.sent + c.output == log.sent;
    }
  }

  lemma SettledLogs(t: Table, u: Table, logs: map<nat, Log>, id: nat, log: Log,
                    entry: Option<(ConnState, Flow)>, interest: Option<Interest>)
    requires LogsOk(t, logs) && id in t.flows && id in logs
    requires log.received == logs[id].received && log.parsed == logs[id].parsed
    requires SettledAs(t, u, id, entry, interest) && (log.ending.Open? <==> entry.Some?)
    ensures LogsOk(u, logs[id := log])
  {
    hide Parse;
  }

  /** Every live connection has its parts and its log. */
  ghost predicate Tracked(t: Table, logs: map<nat, Log>) {
    && t.connections.Keys == t.flows.Keys
    && (forall id :: id in t.flows ==> id in logs)
  }

  lemma LiveAreTracked(cfg: Config, t: Table, logs: map<nat, Log>)
    requires TableOk(cfg, t) && LogsOk(t, logs)
    ensures Tracked(t, logs)
  {}

  /** The other connections do not notice. */
  lemma OtherLive(cfg: Config, t: Table, u: Table, logs: map<nat, Log>, pc: Pc, id: nat, log: Log, next: Pc,
                  entry: Option<(ConnState, Flow)>, interest: Option<Interest>, i: nat)
    requires Tracked(t, logs) && i in t.flows && i != id && LiveOk(cfg, t, logs, pc, i)
    requires !next.Submitting? && (pc.Submitting? ==> pc.id == id)
    requires SettledAs(t, u, id, entry, interest)
    ensures i in u.connections && i in u.flows && LiveOk(cfg, u, logs[id := log], next, i)
  {
    hide ConnOk, ShouldClose;
  }

  lemma KeptOk(cfg: Config, t: Table, u: Table, logs: map<nat, Log>, pc: Pc, id: nat,
               c: ConnState, f: Flow, log: Log, next: Pc)
    requires ConnectionsOk(cfg, t, logs, pc) && id in t.flows && id in logs
    requires log.received == logs[id].received && log.parsed == logs[id].parsed && log.ending.Open?
    requires ConnOk(cfg, c, f, log, []) && !ShouldClose(c, f) && log.parsed.error.None?
    requires !next.Submitting? && (pc.Submitting? ==> pc.id == id)
    requires SettledAs(t, u, id, Some(Kept(c, f)), WantedInterest(c, f))
    ensures ConnectionsOk(cfg, u, logs[id := log], next)
  {
    hide TableOk, LogsOk, EndedOk, WantedInterest, ConnOk, LiveOk;
    LiveAreTracked(cfg, t, logs);
    KeptTable(cfg, t, u, id, c, f);
    SettledLogs(t, u, logs, id, log, Some(Kept(c, f)), WantedInterest(c, f));
    LiveAreTracked(cfg, u, logs[id := log]);
    KeptLive(cfg, u, logs[id := log], next, id, c, f);
    forall i | i in u.flows && i != id ensures LiveOk(cfg, u, logs[id := log], next, i) {
      OtherLive(cfg, t, u, logs, pc, id, log, next, Some(Kept(c, f)), WantedInterest(c, f), i);
    }
  }

  lemma KeptLive(cfg: Config, u: Table, logs: map<nat, Log>, next: Pc, id: nat, c: ConnState, f: Flow)
    requires id in u.connections && id in u.flows && id in logs && (u.connections[id], u.flows[id]) == Kept(c, f)
    requires ConnOk(cfg, c, f, logs[id], []) && !ShouldClose(c, f) && logs[id].parsed.error.None?
    requires !next.Submitting?
    ensures LiveOk(cfg, u, logs, next, id)
  {
    hide ConnOk, WantedInterest;
    RegisteredIsFree(cfg, c, f, logs[id], logs[id].ending, u.flows[id].registered);
  }

  /** What is left in the table was there before, the connection itself aside. */
  lemma RemovedKeys(t: Table, u: Table, id: nat, i: nat)
    requires SettledAs(t, u, id, None, None)
    ensures i in u.flows <==> i in t.flows && i != id
  {}

  lemma RemovedEnds(cfg: Config, t: Table, u: Table, logs: map<nat, Log>, id: nat, log: Log, i: nat)
    requires SettledAs(t, u, id, None, None) && EndedOk(cfg, log)
    requires i in logs && i !in t.flows ==> EndedOk(cfg, logs[i])
    ensures i in logs[id := log] && i !in u.flows ==> EndedOk(cfg, logs[id := log][i])
  {
    hide EndedOk, SettledAs;
    RemovedKeys(t, u, id, i);
  }

  lemma RemovedOk(cfg: Config, t: Table, u: Table, logs: map<nat, Log>, pc: Pc, id: nat, log: Log, next: Pc)
    requires ConnectionsOk(cfg, t, logs, pc) && id in t.flows && id in logs
    requires log.received == logs[id].received && log.parsed == logs[id].parsed && !log.ending.Open?
    requires EndedOk(cfg, log)
    requires !next.Submitting? && (pc.Submitting? ==> pc.id == id)
    requires SettledAs(t, u, id, None, None)
    ensures ConnectionsOk(cfg, u, logs[id := log], next)
  {
    hide TableOk, LogsOk, EndedOk, LiveOk, SettledAs;
    LiveAreTracked(cfg, t, logs);
    RemovedTable(cfg, t, u, id);
    SettledLogs(t, u, logs, id, log, None, None);
    LiveAreTracked(cfg, u, logs[id := log]);
    forall i | i in u.flows ensures LiveOk(cfg, u, logs[id := log], next, i) {
      RemovedKeys(t, u, id, i);
      OtherLive(cfg, t, u, logs, pc, id, log, next, None, None, i);
    }
    forall i | i in logs[id := log] && i !in u.flows ensures EndedOk(cfg, logs[id := log][i]) {
      RemovedEnds(cfg, t, u, logs, id, log, i);
    }
  }

  /** Settling the connection of an event keeps everything about connections. */
  lemma SettleOk(cfg: Config, t: Table, logs: map<nat, Log>, pc: Pc, id: nat,
                 c: ConnState, f: Flow, log: Log, abort: bool, next: Pc)
    requires ConnectionsOk(cfg, t, logs, pc) && id in t.flows && id in logs
    requires log.received == logs[id].received && log.parsed == logs[id].parsed
    requires StreamOk(cfg, c, f, log)
    requires !abort ==> ConnOk(cfg, c, f, log, []) && log.parsed.error.None?
    requires f.registered == t.flows[id].registered
    requires !next.Submitting? && (pc.Submitting? ==> pc.id == id)
    ensures var (u, e) := Settle(t, id, c, f, abort);
            ConnectionsOk(cfg, u, logs[id := log.(ending := e)], next)
  {
    hide StreamOk, ConnOk, Settle, SettledAs;
    var (u, e) := Settle(t, id, c, f, abort);
    assert TableOk(cfg, t);
    SettleResult(cfg, t, id, c, f, abort);
    hide ConnectionsOk;
    if e.Open? {
      RegisteredIsFree(cfg, c, f, log, Open, f.registered);
      KeptOk(cfg, t, u, logs, pc, id, c, f, log.(ending := Open), next);
    } else {
      EndsOk(cfg, c, f, log, e.Drained?);
      RemovedOk(cfg, t, u, logs, pc, id, log.(ending := e), next);
    }
  }

  /** Neither the registration flag nor the ending matters to what a connection holds. */
  lemma RegisteredIsFree(cfg: Config, c: ConnState, f: Flow, log: Log, e: Ending, registered: bool)
    requires ConnOk(cfg, c, f, log, [])
    ensures ConnOk(cfg, c, f.(registered := registered), log.(ending := e), [])
  {
    hide ResponseStream;
  }

  lemma SettleConserves(cfg: Config, t: Table, logs: map<nat, Log>, id: nat, c: ConnState, f: Flow,
                        log: Log, abort: bool, next: Pc, out: multiset<WorkResult>)
    requires TableOk(cfg, t) && id in t.flows && f.registered == t.flows[id].registered
    requires ConservedOk(cfg, t.flows[id := f], logs[id := log], next, out)
    ensures var (u, e) := Settle(t, id, c, f, abort);
            ConservedOk(cfg, u.flows, logs[id := log.(ending := e)], next, out)
  {
    hide Settle, TableOk, AccountedOk, WantedInterest;
    var (u, e) := Settle(t, id, c, f, abort);
    SettleResult(cfg, t, id, c, f, abort);
    var m, m' := logs[id := log], logs[id := log.(ending := e)];
    AuthenticStays(cfg, m, m', out);
    var g := t.flows[id := f];
    forall i | i in u.flows ensures i in m' && AccountedOk(cfg, u.flows[i], m'[i], Ahead(next, i), i, out) {
      assert i in g && AccountedOk(cfg, g[i], m[i], Ahead(next, i), i, out);
      AccountedStays(cfg, g[i], u.flows[i], m[i], m'[i], Ahead(next, i), i, out, out);
    }
  }

  /** Conservation speaks of the requests in the logs only. */
  lemma AuthenticStays(cfg: Config, logs: map<nat, Log>, logs': map<nat, Log>, out: multiset<WorkResult>)
    requires AuthenticOk(cfg, logs, out)
    requires forall id :: id in logs ==> id in logs' && Requests(logs[id]) <= Requests(logs'[id])
    ensures AuthenticOk(cfg, logs', out)
  {}

  /** What is accounted for stays so when nothing that matters to it changes. */
  lemma AccountedStays(cfg: Config, f: Flow, f': Flow, log: Log, log': Log, ahead: nat, id: nat,
                       out: multiset<WorkResult>, out': multiset<WorkResult>)
    requires AccountedOk(cfg, f, log, ahead, id, out)
    requires f'.nextRequest == f.nextRequest && f'.nextResponse == f.nextResponse && f'.completed == f.completed
    requires Requests(log) <= Requests(log')
    requires forall r: WorkResult :: r.id == id ==> out'[r] == out[r]
    ensures AccountedOk(cfg, f', log', ahead, id, out')
  {
    forall k | f.nextResponse <= k < f.nextRequest + ahead
      ensures k in f'.completed <==> Expected(cfg, log', id, k) !in out'
    {
      assert Expected(cfg, log', id, k) == Expected(cfg, log, id, k);
    }
  }

  /** A step that touches one connection and its work keeps the account of all. */
  lemma Reaccount(cfg: Config, flows: map<nat, Flow>, logs: map<nat, Log>, pc: Pc, out: multiset<WorkResult>,
                  id: nat, f: Flow, log: Log, next: Pc, out': multiset<WorkResult>)
    requires ConservedOk(cfg, flows, logs, pc, out)
    requires AuthenticOk(cfg, logs[id := log], out')
    requires AccountedOk(cfg, f, log, Ahead(next, id), id, out')
    requires forall i :: i != id ==> Ahead(next, i) == Ahead(pc, i)
    requires forall r: WorkResult :: r.id != id ==> out'[r] == out[r]
    ensures ConservedOk(cfg, flows[id := f], logs[id := log], next, out')
  {
    hide AccountedOk, AuthenticOk;
    var g, m := flows[id := f], logs[id := log];
    forall i | i in g ensures i in m && AccountedOk(cfg, g[i], m[i], Ahead(next, i), i, out') {
      if i != id {
        AccountedStays(cfg, flows[i], g[i], logs[i], m[i], Ahead(pc, i), i, out, out');
      }
    }
  }

  // ------------------------------------------- the steps of a connection event

  /** What is known of one live connection. */
  lemma LiveFacts(cfg: Config, t: Table, logs: map<nat, Log>, pc: Pc, id: nat)
    requires ConnectionsOk(cfg, t, logs, pc) && id in t.flows
    ensures id in t.connections && id in logs && LiveOk(cfg, t, logs, pc, id)
    ensures TableOk(cfg, t) && LogsOk(t, logs)
    ensures logs[id].parsed == Parse(logs[id].received) && logs[id].ending.Open?
  {
    hide Parse, LiveOk;
  }

  /** Cutting off the connection of an event. */
  lemma AbortOk(cfg: Config, t: Table, logs: map<nat, Log>, pc: Pc, id: nat)
    requires ConnectionsOk(cfg, t, logs, pc) && id in t.flows
    requires id in t.connections && id in logs
    requires pc.Submitting? ==> pc.id == id
    ensures var (u, e) := Settle(t, id, t.connections[id], t.flows[id], true);
            ConnectionsOk(cfg, u, logs[id := logs[id].(ending := e)], Polling)
  {
    LiveFacts(cfg, t, logs, pc, id);
    hide ConnectionsOk, Settle, StreamOk;
    SettleOk(cfg, t, logs, pc, id, t.connections[id], t.flows[id], logs[id], true, Polling);
  }

  /** Settling a connection whose counters and requests are as before moves no work. */
  lemma SettleSame(cfg: Config, t: Table, logs: map<nat, Log>, pc: Pc, id: nat, c: ConnState, f: Flow, log: Log,
                   abort: bool, out: multiset<WorkResult>)
    requires TableOk(cfg, t) && id in t.flows && id in logs
    requires ConservedOk(cfg, t.flows, logs, pc, out)
    requires pc.Submitting? ==> pc.id == id && pc.phase.Testing?
    requires f.nextRequest == t.flows[id].nextRequest && f.nextResponse == t.flows[id].nextResponse
    requires f.completed == t.flows[id].completed && f.registered == t.flows[id].registered
    requires Requests(log) == Requests(logs[id])
    ensures var (u, e) := Settle(t, id, c, f, abort);
            ConservedOk(cfg, u.flows, logs[id := log.(ending := e)], Polling, out)
  {
    hide TableOk, Settle, AccountedOk, AuthenticOk;
    AuthenticStays(cfg, logs, logs[id := log], out);
    AccountedStays(cfg, t.flows[id], f, logs[id], log, 0, id, out, out);
    Reaccount(cfg, t.flows, logs, pc, out, id, f, log, Polling, out);
    hide ConservedOk;
    SettleConserves(cfg, t, logs, id, c, f, log, abort, Polling, out);
  }

  /** A connection to which nothing happens stays as it is. */
  lemma LiveCarries(cfg: Config, t: Table, u: Table, logs: map<nat, Log>, logs': map<nat, Log>, pc: Pc,
                    next: Pc, i: nat)
    requires i in t.connections && i in t.flows && i in logs && LiveOk(cfg, t, logs, pc, i)
    requires i in u.connections && i in u.flows && i in logs'
    requires u.connections[i] == t.connections[i] && u.flows[i] == t.flows[i] && logs'[i] == logs[i]
    requires Todo(next, i) == Todo(pc, i) && (ErrorOk(pc, i, logs[i]) ==> ErrorOk(next, i, logs[i]))
    ensures LiveOk(cfg, u, logs', next, i)
  {}

  lemma ReadLive(cfg: Config, c: ConnState, f: Flow, log: Log, received: seq<Byte>, r: ReadResult)
    requires ConnOk(cfg, c, f, log, []) && log.parsed == Parse(log.received) && log.parsed.error.None?
    requires ReadOutcome(cfg.maxInput, cfg.readBudget, c.input, received, r, Parse(c.input + received).rest)
    ensures var p := Parse(c.input + received);
            var log' := log.(received := log.received + received,
                             parsed := p.(messages := log.parsed.messages + p.messages));
            && log'.parsed == Parse(log'.received)
            && ConnOk(cfg, c.(input := p.rest), f, log', r.messages)
            && (log'.parsed.error.None? || r.status.ReadProtocolError?)
  {
    hide Parse, ResponseStream;
    var p := Parse(c.input + received);
    ParseAppend(log.received, received);
    var ms := log.parsed.messages + p.messages;
    assert f.nextRequest == |log.parsed.messages|;
    assert ms[f.nextRequest..] == p.messages;
    assert ms[..f.nextResponse] == log.parsed.messages[..f.nextResponse];
  }

  lemma InputTable(cfg: Config, t: Table, id: nat, c: ConnState)
    requires TableOk(cfg, t) && id in t.connections && id in t.flows
    requires c.output == t.connections[id].output
    ensures TableOk(cfg, Put(t, id, c, t.flows[id]))
  {
    var u := Put(t, id, c, t.flows[id]);
    assert u.flows == t.flows && u.connections.Keys == t.connections.Keys;
    assert |u.connections| == |u.connections.Keys| == |t.connections|;
    forall i | i in u.flows ensures InterestOk(u, i) {
      assert InterestOk(t, i);
    }
  }

  lemma InputLogs(t: Table, logs: map<nat, Log>, id: nat, c: ConnState, log: Log)
    requires LogsOk(t, logs) && id in t.flows && id in logs
    requires log.ending == logs[id].ending && log.parsed == Parse(log.received)
    ensures LogsOk(Put(t, id, c, t.flows[id]), logs[id := log])
  {
    hide Parse;
    assert Put(t, id, c, t.flows[id]).flows == t.flows;
  }

  /** Entering `SubmitWork` with what was read. */
  lemma ReadConnections(cfg: Config, t: Table, logs: map<nat, Log>, id: nat, c: ConnState, log: Log, pc: Pc)
    requires ConnectionsOk(cfg, t, logs, Polling) && id in t.connections && id in t.flows && id in logs
    requires c.output == t.connections[id].output && !t.flows[id].closeAfterFlush
    requires pc.Submitting? && pc.id == id && pc.phase.Testing?
    requires log.ending == logs[id].ending && log.parsed == Parse(log.received)
    requires ConnOk(cfg, c, t.flows[id], log, pc.todo) && ErrorOk(pc, id, log)
    ensures ConnectionsOk(cfg, Put(t, id, c, t.flows[id]), logs[id := log], pc)
  {
    hide Parse, ConnOk, EndedOk, TableOk, LiveOk, LogsOk;
    var u, m := Put(t, id, c, t.flows[id]), logs[id := log];
    assert u.flows == t.flows;
    LiveAreTracked(cfg, t, logs);
    InputTable(cfg, t, id, c);
    InputLogs(t, logs, id, c, log);
    assert LiveOk(cfg, u, m, pc, id) by { OpenLive(cfg, u, m, pc, id); }
    forall i | i in u.flows && i != id ensures LiveOk(cfg, u, m, pc, i) {
      LiveCarries(cfg, t, u, logs, m, Polling, pc, i);
    }
  }

  lemma OpenLive(cfg: Config, t: Table, logs: map<nat, Log>, pc: Pc, id: nat)
    requires id in t.connections && id in t.flows && id in logs
    requires ConnOk(cfg, t.connections[id], t.flows[id], logs[id], Todo(pc, id)) && ErrorOk(pc, id, logs[id])
    requires !t.flows[id].closeAfterFlush
    ensures LiveOk(cfg, t, logs, pc, id)
  {
    hide ConnOk;
  }

  lemma ReadStepOk(cfg: Config, s: State, e: Label)
    requires ConnectionsOk(cfg, s.table, s.logs, s.pc) && s.pc.Polling?
    requires e.Event? && !e.error && e.readable
    requires e.id in s.table.connections && e.id in s.table.flows && e.id in s.logs
    requires !s.table.flows[e.id].closeAfterFlush
    ensures var s' := EventStep(cfg, s, e);
            ConnectionsOk(cfg, s'.table, s'.logs, s'.pc)
  {
    hide Parse, ConnectionsOk, ReadOutcome, ConnOk, TableOk, LogsOk;
    var id := e.id;
    var c, f, log := s.table.connections[id], s.table.flows[id], s.logs[id];
    LiveFacts(cfg, s.table, s.logs, s.pc, id);
    var p := Parse(c.input + e.received);
    if id != SHUTDOWN_SIGNAL_KEY && ReadOutcome(cfg.maxInput, cfg.readBudget, c.input, e.received, e.result, p.rest) {
      ReadLive(cfg, c, f, log, e.received, e.result);
      var log' := log.(received := log.received + e.received,
                       parsed := p.(messages := log.parsed.messages + p.messages));
      ReadConnections(cfg, s.table, s.logs, id, c.(input := p.rest), log',
                      Submitting(id, e.result.messages, Testing, e.result.status, e.writable));
    }
  }

  lemma ReadConserves(cfg: Config, s: State, e: Label, out: multiset<WorkResult>)
    requires ConservedOk(cfg, s.table.flows, s.logs, s.pc, out) && s.pc.Polling?
    requires e.Event? && !e.error && e.readable
    requires e.id in s.table.connections && e.id in s.table.flows && e.id in s.logs
    requires !s.table.flows[e.id].closeAfterFlush
    ensures var s' := EventStep(cfg, s, e);
            ConservedOk(cfg, s'.table.flows, s'.logs, s'.pc, out)
  {
    hide Parse, ReadOutcome, AuthenticOk, AccountedOk;
    var s', id := EventStep(cfg, s, e), e.id;
    var f, log, log' := s.table.flows[id], s.logs[id], s'.logs[id];
    if s' != s {
      AuthenticStays(cfg, s.logs, s'.logs, out);
      AccountedStays(cfg, f, f, log, log', 0, id, out, out);
      Reaccount(cfg, s.table.flows, s.logs, s.pc, out, id, f, log', s'.pc, out);
      assert s'.logs == s.logs[id := log'];
    }
  }

  /** A change of the reactor's position alone. */
  lemma MoveOk(cfg: Config, t: Table, logs: map<nat, Log>, pc: Pc, next: Pc)
    requires ConnectionsOk(cfg, t, logs, pc) && PcOk(cfg, t, next)
    requires forall id :: id in t.flows ==>
               && Todo(next, id) == Todo(pc, id)
               && (pc.Submitting? && pc.id == id ==>
                     next.Submitting? && next.id == id && next.status == pc.status)
    ensures ConnectionsOk(cfg, t, logs, next)
  {
    hide TableOk, LogsOk, EndedOk, LiveOk;
    LiveAreTracked(cfg, t, logs);
    forall i | i in t.flows ensures LiveOk(cfg, t, logs, next, i) {
      LiveCarries(cfg, t, t, logs, logs, pc, next, i);
    }
  }

  lemma MoveConserves(cfg: Config, flows: map<nat, Flow>, logs: map<nat, Log>, pc: Pc, next: Pc,
                      out: multiset<WorkResult>)
    requires ConservedOk(cfg, flows, logs, pc, out)
    requires forall id :: id in flows ==> Ahead(next, id) == Ahead(pc, id)
    ensures ConservedOk(cfg, flows, logs, next, out)
  {
    hide AccountedOk, AuthenticOk;
  }

  lemma PushAccounted(cfg: Config, f: Flow, log: Log, id: nat, out: multiset<WorkResult>)
    requires AccountedOk(cfg, f, log, 0, id, out) && f.nextRequest < |Requests(log)|
    requires CompletedOk(cfg, f, log, f.nextResponse + 1) && f.nextResponse <= f.nextRequest
    ensures Expected(cfg, log, id, f.nextRequest) !in out
    ensures AccountedOk(cfg, f, log, 1, id, out + multiset{Expected(cfg, log, id, f.nextRequest)})
  {
    var r := Expected(cfg, log, id, f.nextRequest);
    var out' := out + multiset{r};
    forall k | f.nextResponse <= k < f.nextRequest + 1
      ensures k in f.completed <==> Expected(cfg, log, id, k) !in out'
    {
      assert k != f.nextRequest ==> Expected(cfg, log, id, k) != r;
    }
  }

  /** The first message to submit is the request that the counter stands at. */
  lemma NextInLine(cfg: Config, c: ConnState, f: Flow, log: Log, todo: seq<Message>, id: nat)
    requires ConnOk(cfg, c, f, log, todo) && todo != []
    ensures f.nextResponse <= f.nextRequest < |Requests(log)| && CompletedOk(cfg, f, log, f.nextResponse + 1)
    ensures Expected(cfg, log, id, f.nextRequest) == Perform(cfg, WorkItem(id, f.nextRequest, todo[0]))
  {
    hide ResponseStream;
  }

  /** A push: the sequence number is under way before the counter covers it. */
  lemma PushConserves(cfg: Config, s: State, out: multiset<WorkResult>)
    requires s.pc.Submitting? && s.pc.phase.Testing? && s.pc.todo != []
    requires s.pc.id in s.table.connections && s.pc.id in s.table.flows && s.pc.id in s.logs
    requires ConnOk(cfg, s.table.connections[s.pc.id], s.table.flows[s.pc.id], s.logs[s.pc.id], s.pc.todo)
    requires StreamOk(cfg, s.table.connections[s.pc.id], s.table.flows[s.pc.id], s.logs[s.pc.id])
    requires ConservedOk(cfg, s.table.flows, s.logs, s.pc, out)
    ensures var item := WorkItem(s.pc.id, s.table.flows[s.pc.id].nextRequest, s.pc.todo[0]);
            ConservedOk(cfg, s.table.flows, s.logs, s.pc.(phase := Pushed), out + multiset{Perform(cfg, item)})
  {
    hide StreamOk, ConnOk, AccountedOk, AuthenticOk;
    var id := s.pc.id;
    var f, log := s.table.flows[id], s.logs[id];
    NextInLine(cfg, s.table.connections[id], f, log, s.pc.todo, id);
    var r := Expected(cfg, log, id, f.nextRequest);
    PushAccounted(cfg, f, log, id, out);
    PushAuthentic(cfg, s.logs, id, f.nextRequest, out);
    assert s.logs[id := log] == s.logs && s.table.flows[id := f] == s.table.flows;
    Reaccount(cfg, s.table.flows, s.logs, s.pc, out, id, f, log, s.pc.(phase := Pushed), out + multiset{r});
  }

  lemma PushAuthentic(cfg: Config, logs: map<nat, Log>, id: nat, k: nat, out: multiset<WorkResult>)
    requires AuthenticOk(cfg, logs, out) && id in logs && k < |Requests(logs[id])|
    requires Expected(cfg, logs[id], id, k) !in out
    ensures AuthenticOk(cfg, logs, out + multiset{Expected(cfg, logs[id], id, k)})
  {}

  /** The counter catches up with the push. */
  lemma CountOk(cfg: Config, t: Table, logs: map<nat, Log>, pc: Pc)
    requires ConnectionsOk(cfg, t, logs, pc)
    requires pc.Submitting? && pc.phase.Notified? && pc.todo != []
    ensures pc.id in t.flows
    ensures ConnectionsOk(cfg, t.(flows := t.flows[pc.id := Counted(t.flows[pc.id])]), logs,
                          pc.(phase := Testing, todo := pc.todo[1..]))
  {
    hide Parse, ConnOk, EndedOk, TableOk, LogsOk, LiveOk;
    var id, next := pc.id, pc.(phase := Testing, todo := pc.todo[1..]);
    var u := t.(flows := t.flows[id := Counted(t.flows[id])]);
    LiveAreTracked(cfg, t, logs);
    CountTable(cfg, t, logs, id);
    CountedLive(cfg, t, u, logs, pc, next);
    forall i | i in u.flows && i != id ensures LiveOk(cfg, u, logs, next, i) {
      LiveCarries(cfg, t, u, logs, logs, pc, next, i);
    }
  }

  lemma CountedLive(cfg: Config, t: Table, u: Table, logs: map<nat, Log>, pc: Pc, next: Pc)
    requires pc.Submitting? && pc.todo != [] && next == pc.(phase := Testing, todo := pc.todo[1..])
    requires pc.id in t.connections && pc.id in t.flows && pc.id in logs && LiveOk(cfg, t, logs, pc, pc.id)
    requires u == t.(flows := t.flows[pc.id := Counted(t.flows[pc.id])])
    requires !t.flows[pc.id].closeAfterFlush
    requires t.flows[pc.id].nextRequest < t.flows[pc.id].nextResponse + cfg.maxInFlight
    ensures LiveOk(cfg, u, logs, next, pc.id)
  {
    hide ConnOk;
    CountedConn(cfg, t.connections[pc.id], t.flows[pc.id], logs[pc.id], pc.todo);
    OpenLive(cfg, u, logs, next, pc.id);
  }

  function Counted(f: Flow): Flow {
    f.(nextRequest := f.nextRequest + 1)
  }

  lemma CountedConn(cfg: Config, c: ConnState, f: Flow, log: Log, todo: seq<Message>)
    requires ConnOk(cfg, c, f, log, todo) && todo != [] && f.nextRequest < f.nextResponse + cfg.maxInFlight
    ensures ConnOk(cfg, c, Counted(f), log, todo[1..])
  {
    hide ResponseStream;
    assert todo[1..] == Requests(log)[f.nextRequest + 1..];
  }

  lemma CountTable(cfg: Config, t: Table, logs: map<nat, Log>, id: nat)
    requires TableOk(cfg, t) && LogsOk(t, logs) && id in t.flows
    ensures var u := t.(flows := t.flows[id := Counted(t.flows[id])]);
            TableOk(cfg, u) && LogsOk(u, logs)
  {
    hide LogsOk, WantedInterest;
    var u := t.(flows := t.flows[id := Counted(t.flows[id])]);
    assert u.flows.Keys == t.flows.Keys;
    SameKeysLogs(t, u, logs);
    forall i | i in u.flows ensures InterestOk(u, i) {
      assert InterestOk(t, i);
      WantedIsFree(t.connections[id], t.flows[id]);
    }
  }

  lemma SameKeysLogs(t: Table, u: Table, logs: map<nat, Log>)
    requires LogsOk(t, logs) && u.flows.Keys == t.flows.Keys && u.nextId == t.nextId
    ensures LogsOk(u, logs)
  {
    hide Parse;
  }

  lemma WantedIsFree(c: ConnState, f: Flow)
    ensures WantedInterest(c, Counted(f)) == WantedInterest(c, f)
  {}

  lemma CountConserves(cfg: Config, flows: map<nat, Flow>, logs: map<nat, Log>, pc: Pc, out: multiset<WorkResult>)
    requires pc.Submitting? && pc.phase.Notified? && pc.todo != []
    requires pc.id in flows && pc.id in logs
    requires ConservedOk(cfg, flows, logs, pc, out)
    ensures ConservedOk(cfg, flows[pc.id := Counted(flows[pc.id])], logs,
                        pc.(phase := Testing, todo := pc.todo[1..]), out)
  {
    hide AccountedOk, AuthenticOk;
    var id := pc.id;
    CountAccounted(cfg, flows[id], logs[id], id, out);
    assert logs[id := logs[id]] == logs;
    Reaccount(cfg, flows, logs, pc, out, id, Counted(flows[id]), logs[id],
              pc.(phase := Testing, todo := pc.todo[1..]), out);
  }

  lemma CountAccounted(cfg: Config, f: Flow, log: Log, id: nat, out: multiset<WorkResult>)
    requires AccountedOk(cfg, f, log, 1, id, out)
    ensures AccountedOk(cfg, Counted(f), log, 0, id, out)
  {}

  /** The end of the event: what was written moves from pending to sent. */
  lemma WrittenConn(cfg: Config, c: ConnState, f: Flow, log: Log, n: nat, closes: bool)
    requires ConnOk(cfg, c, f, log, []) && n <= |c.output|
    ensures ConnOk(cfg, c.(output := c.output[n..]), if closes then f.(closeAfterFlush := true) else f,
                   log.(sent := log.sent + c.output[..n]), [])
  {
    hide ResponseStream;
    assert (log.sent + c.output[..n]) + c.output[n..] == log.sent + c.output;
  }

  /** What the end of an event settles: the connection, the flow and the log it leaves. */
  datatype Outcome = Outcome(connection: ConnState, flow: Flow, log: Log, abort: bool)

  function FinishOutcome(c: ConnState, f: Flow, log: Log, pc: Pc, sent: nat, wrote: WriteStatus): Outcome
    requires pc.Submitting? && sent <= |c.output|
  {
    var n := if pc.writable && !pc.status.ReadProtocolError? then sent else 0;
    Outcome(c.(output := c.output[n..]), if pc.status.ReadPeerClosed? then f.(closeAfterFlush := true) else f,
            log.(sent := log.sent + c.output[..n]),
            pc.status.ReadProtocolError? || (pc.writable && wrote.WritePeerClosed?))
  }

  lemma FinishSettles(cfg: Config, s: State, sent: nat, wrote: WriteStatus)
    requires s.pc.Submitting? && s.pc.id in s.table.connections && s.pc.id in s.table.flows && s.pc.id in s.logs
    ensures FinishStep(cfg, s, sent, wrote) == s ||
            (var n := if s.pc.writable && !s.pc.status.ReadProtocolError? then sent else 0;
             && n <= |s.table.connections[s.pc.id].output|
             && var o := FinishOutcome(s.table.connections[s.pc.id], s.table.flows[s.pc.id], s.logs[s.pc.id], s.pc,
                                       n, wrote);
                FinishStep(cfg, s, sent, wrote) ==
                  Record(s, s.pc.id, o.log, Settle(s.table, s.pc.id, o.connection, o.flow, o.abort), Polling))
  {
    hide Settle, WriteOutcome;
    var c := s.table.connections[s.pc.id];
    assert c.output[0..] == c.output;
  }

  /** What the end of an event leaves is fit to be settled. */
  lemma FinishedConn(cfg: Config, c: ConnState, f: Flow, log: Log, pc: Pc, sent: nat, wrote: WriteStatus)
    requires pc.Submitting? && sent <= |c.output| && ConnOk(cfg, c, f, log, []) && ErrorOk(pc, pc.id, log)
    ensures var o := FinishOutcome(c, f, log, pc, sent, wrote);
            && ConnOk(cfg, o.connection, o.flow, o.log, []) && StreamOk(cfg, o.connection, o.flow, o.log)
            && (!o.abort ==> o.log.parsed.error.None?)
            && o.log.received == log.received && o.log.parsed == log.parsed
            && o.flow == f.(closeAfterFlush := o.flow.closeAfterFlush)
  {
    hide ConnOk, StreamOk;
    var o := FinishOutcome(c, f, log, pc, sent, wrote);
    WrittenConn(cfg, c, f, log, if pc.writable && !pc.status.ReadProtocolError? then sent else 0,
                pc.status.ReadPeerClosed?);
    ConnStream(cfg, o.connection, o.flow, o.log, []);
  }

  lemma ConnStream(cfg: Config, c: ConnState, f: Flow, log: Log, todo: seq<Message>)
    requires ConnOk(cfg, c, f, log, todo)
    ensures StreamOk(cfg, c, f, log)
  {}
}
