/** The remaining steps of the reactor, and the induction over steps: every reachable state
    satisfies the invariants. */
module StepInvariants {
  import opened Streams
  import opened Connections
  import opened Reactors
  import opened Servers
  import opened Invariants
  import opened Preservation

  // ---------------------------------------------------- results reach the reactor

  /** What a result leaves of its connection. */
  function CompleteOutcome(maxOutput: nat, c: ConnState, f: Flow, log: Log, r: WorkResult): Outcome {
    var l := FlushLoop(maxOutput, c, WithResult(f, r));
    Outcome(l.connection, l.flow, log, !l.ok)
  }

  lemma CompleteSettles(maxOutput: nat, t: Table, log: Log, r: WorkResult)
    requires r.id in t.connections && r.id in t.flows
    ensures var o := CompleteOutcome(maxOutput, t.connections[r.id], t.flows[r.id], log, r);
            Complete(maxOutput, t, r) == Settle(t, r.id, o.connection, o.flow, o.abort)
  {
    hide FlushLoop;
    var f := WithResult(t.flows[r.id], r);
    var o := CompleteOutcome(maxOutput, t.connections[r.id], t.flows[r.id], log, r);
    assert t.flows[r.id := f][r.id := o.flow] == t.flows[r.id := o.flow];
  }

  /** A result that arrives for a live connection is one that is awaited: its place in the
      reorder map is free, so `emplace` never finds an entry there. */
  lemma ArrivingResult(cfg: Config, f: Flow, logs: map<nat, Log>, id: nat, r: WorkResult, out: multiset<WorkResult>)
    requires AuthenticOk(cfg, logs, out) && id in logs && AccountedOk(cfg, f, logs[id], 0, id, out)
    requires r in out && r.id == id
    ensures f.nextResponse <= r.sequence < f.nextRequest <= |Requests(logs[id])|
    ensures r == Expected(cfg, logs[id], id, r.sequence)
    ensures r.sequence !in f.completed
  {
    assert r == Expected(cfg, logs[id], id, r.sequence);
  }

  lemma EmplacedOk(cfg: Config, c: ConnState, f: Flow, log: Log, r: WorkResult)
    requires ConnOk(cfg, c, f, log, [])
    requires f.nextResponse <= r.sequence < f.nextRequest && r.response == cfg.respond(Requests(log)[r.sequence])
    ensures StreamOk(cfg, c, WithResult(f, r), log) && CompletedOk(cfg, WithResult(f, r), log, f.nextResponse)
  {
    hide ResponseStream;
  }

  lemma FlushedConn(cfg: Config, f: Flow, c: ConnState, c': ConnState, f': Flow, log: Log)
    requires ConnOk(cfg, c, f, log, [])
    requires CompletedOk(cfg, f', log, f'.nextResponse + 1) && StreamOk(cfg, c', f', log)
    requires f.nextResponse <= f'.nextResponse && f'.nextRequest == f.nextRequest
    requires c'.input == c.input && |c'.output| <= cfg.maxOutput
    ensures ConnOk(cfg, c', f', log, [])
  {
    hide StreamOk, CompletedOk;
  }

  lemma FlushedCompleted(cfg: Config, f: Flow, f': Flow, log: Log)
    requires CompletedOk(cfg, f, log, f.nextResponse) && Flushed(f, f') && f'.nextResponse !in f'.completed
    ensures CompletedOk(cfg, f', log, f'.nextResponse + 1)
  {}

  lemma CompletedConn(cfg: Config, c: ConnState, f: Flow, log: Log, r: WorkResult)
    requires ConnOk(cfg, c, f, log, [])
    requires f.nextResponse <= r.sequence < f.nextRequest && r.response == cfg.respond(Requests(log)[r.sequence])
    ensures var o := CompleteOutcome(cfg.maxOutput, c, f, log, r);
            && StreamOk(cfg, o.connection, o.flow, log)
            && (!o.abort ==> ConnOk(cfg, o.connection, o.flow, log, []))
            && Flushed(WithResult(f, r), o.flow)
  {
    hide StreamOk, CompletedOk, FlushLoop;
    EmplacedOk(cfg, c, f, log, r);
    FlushLoopOk(cfg, c, WithResult(f, r), log);
    var o := CompleteOutcome(cfg.maxOutput, c, f, log, r);
    if !o.abort {
      FlushedCompleted(cfg, WithResult(f, r), o.flow, log);
      FlushedConn(cfg, f, c, o.connection, o.flow, log);
    }
  }

  lemma ProcessOk(cfg: Config, t: Table, logs: map<nat, Log>, pc: Pc, r: WorkResult, next: Pc,
                  out: multiset<WorkResult>)
    requires ConnectionsOk(cfg, t, logs, pc) && pc.Processing? && next.Processing?
    requires ConservedOk(cfg, t.flows, logs, pc, out) && r in out
    requires r.id in t.flows && r.id in t.connections && r.id in logs
    ensures var (u, e) := Complete(cfg.maxOutput, t, r);
            ConnectionsOk(cfg, u, logs[r.id := logs[r.id].(ending := e)], next)
  {
    var id := r.id;
    LiveFacts(cfg, t, logs, pc, id);
    assert AccountedOk(cfg, t.flows[id], logs[id], 0, id, out);
    ArrivingResult(cfg, t.flows[id], logs, id, r, out);
    hide ConnectionsOk, ConnOk, ConservedOk, AuthenticOk, AccountedOk, CompleteOutcome, Settle, StreamOk, Complete;
    CompletedConn(cfg, t.connections[id], t.flows[id], logs[id], r);
    CompleteSettles(cfg.maxOutput, t, logs[id], r);
    var o := CompleteOutcome(cfg.maxOutput, t.connections[id], t.flows[id], logs[id], r);
    SettleOk(cfg, t, logs, pc, id, o.connection, o.flow, logs[id], o.abort, next);
  }

  lemma FlushedAccounted(cfg: Config, f: Flow, f': Flow, log: Log, id: nat, r: WorkResult, out: multiset<WorkResult>)
    requires AccountedOk(cfg, f, log, 0, id, out + multiset{r}) && r !in out
    requires f.nextResponse <= r.sequence < f.nextRequest <= |Requests(log)| && r.sequence !in f.completed
    requires r == Expected(cfg, log, id, r.sequence)
    requires forall q :: q in out && q.id == id ==>
               q.sequence < |Requests(log)| && q == Expected(cfg, log, id, q.sequence)
    requires Flushed(WithResult(f, r), f')
    ensures AccountedOk(cfg, f', log, 0, id, out)
  {
    var all := out + multiset{r};
    forall k | f.nextResponse <= k < f.nextRequest
      ensures k in WithResult(f, r).completed <==> Expected(cfg, log, id, k) !in out
    {
      assert k in f.completed <==> Expected(cfg, log, id, k) !in all;
    }
    forall q | q in out && q.id == id ensures f'.nextResponse <= q.sequence < f'.nextRequest {
      assert q in all;
    }
  }

  lemma CompletedAccounted(cfg: Config, c: ConnState, f: Flow, logs: map<nat, Log>, r: WorkResult,
                           out: multiset<WorkResult>)
    requires r.id in logs && ConnOk(cfg, c, f, logs[r.id], [])
    requires AuthenticOk(cfg, logs, out + multiset{r})
    requires AccountedOk(cfg, f, logs[r.id], 0, r.id, out + multiset{r})
    ensures var o := CompleteOutcome(cfg.maxOutput, c, f, logs[r.id], r);
            AccountedOk(cfg, o.flow, logs[r.id], 0, r.id, out) && o.flow.registered == f.registered
  {
    var id, log := r.id, logs[r.id];
    ArrivingResult(cfg, f, logs, id, r, out + multiset{r});
    FewerAuthentic(cfg, logs, out, r);
    hide AuthenticOk, AccountedOk, CompleteOutcome, StreamOk, Flushed;
    CompletedConn(cfg, c, f, log, r);
    var o := CompleteOutcome(cfg.maxOutput, c, f, log, r);
    FlushedAccounted(cfg, f, o.flow, log, id, r, out);
    FlushedRegistered(f, o.flow, r);
  }

  lemma ProcessConserves(cfg: Config, t: Table, logs: map<nat, Log>, pc: Pc, r: WorkResult, next: Pc,
                         out: multiset<WorkResult>)
    requires TableOk(cfg, t) && pc.Processing? && next.Processing?
    requires ConservedOk(cfg, t.flows, logs, pc, out + multiset{r})
    requires r.id in t.flows && r.id in t.connections && r.id in logs
    requires LiveOk(cfg, t, logs, pc, r.id)
    ensures var (u, e) := Complete(cfg.maxOutput, t, r);
            ConservedOk(cfg, u.flows, logs[r.id := logs[r.id].(ending := e)], next, out)
  {
    hide ConnOk, AuthenticOk, AccountedOk, CompleteOutcome, Settle, Complete, TableOk;
    var id, log := r.id, logs[r.id];
    CompletedAccounted(cfg, t.connections[id], t.flows[id], logs, r, out);
    FewerAuthentic(cfg, logs, out, r);
    var o := CompleteOutcome(cfg.maxOutput, t.connections[id], t.flows[id], log, r);
    assert logs[id := log] == logs;
    Reaccount(cfg, t.flows, logs, pc, out + multiset{r}, id, o.flow, log, next, out);
    hide ConservedOk, LiveOk;
    SettleConserves(cfg, t, logs, id, o.connection, o.flow, log, o.abort, next, out);
    CompleteSettles(cfg.maxOutput, t, log, r);
  }

  lemma FlushedRegistered(f: Flow, f': Flow, r: WorkResult)
    requires Flushed(WithResult(f, r), f')
    ensures f'.registered == f.registered
  {}

  lemma FewerAuthentic(cfg: Config, logs: map<nat, Log>, out: multiset<WorkResult>, r: WorkResult)
    requires AuthenticOk(cfg, logs, out + multiset{r})
    ensures AuthenticOk(cfg, logs, out) && r !in out
    ensures r.id in logs
    ensures forall q :: q in out && q.id == r.id ==>
              q.sequence < |Requests(logs[r.id])| && q == Expected(cfg, logs[r.id], r.id, q.sequence)
  {
    var all := out + multiset{r};
    assert r in all && all[r] == 1;
    assert forall q :: q in out ==> q in all;
  }

  /** A result for a connection that is gone is dropped, and no connection notices. */
  lemma StaleConserves(cfg: Config, flows: map<nat, Flow>, logs: map<nat, Log>, pc: Pc, r: WorkResult, next: Pc,
                       out: multiset<WorkResult>)
    requires ConservedOk(cfg, flows, logs, pc, out + multiset{r}) && r.id !in flows
    requires !pc.Submitting? && !next.Submitting?
    ensures ConservedOk(cfg, flows, logs, next, out)
  {
    FewerAuthentic(cfg, logs, out, r);
    hide AuthenticOk, AccountedOk;
    forall i | i in flows ensures AccountedOk(cfg, flows[i], logs[i], Ahead(next, i), i, out) {
      AccountedStays(cfg, flows[i], flows[i], logs[i], logs[i], 0, i, out + multiset{r}, out);
    }
  }

  // ----------------------------------------------------------- accept, shut down

  lemma AcceptTable(cfg: Config, t: Table, registers: bool)
    requires TableOk(cfg, t)
    ensures TableOk(cfg, Accept(cfg.maxConnections, t, registers).0)
  {
    hide Accept, Coherent, AllKept;
    AcceptCoheres(cfg.maxConnections, t, registers);
  }

  lemma LoggedNext(t: Table, u: Table, logs: map<nat, Log>, log: Log)
    requires LogsOk(t, logs) && 1 <= t.nextId && u.nextId == t.nextId + 1
    requires u.flows.Keys == (if log.ending.Open? then t.flows.Keys + {t.nextId} else t.flows.Keys)
    requires log.ending.Open? || t.nextId !in t.flows
    requires log.parsed == Parse(log.received)
    ensures LogsOk(u, logs[t.nextId := log])
  {
    hide Parse;
  }

  lemma NewLive(cfg: Config, u: Table, logs: map<nat, Log>, id: nat)
    requires id in u.connections && u.connections[id] == NEW_CONNECTION
    requires id in u.flows && u.flows[id] == NEW_FLOW.(registered := true)
    requires id in logs && logs[id] == NEW_LOG
    ensures LiveOk(cfg, u, logs, Polling, id)
    ensures NEW_LOG.parsed == Parse(NEW_LOG.received)
  {
    EmptyStream();
    assert Requests(NEW_LOG)[..0] == [];
    assert ResponseStream(cfg.respond, []) == [];
  }

  lemma JoinedOk(cfg: Config, t: Table, u: Table, logs: map<nat, Log>)
    requires ConnectionsOk(cfg, t, logs, Polling) && Accept(cfg.maxConnections, t, true) == (u, Joined)
    ensures ConnectionsOk(cfg, u, logs[t.nextId := NEW_LOG], Polling)
  {
    hide LiveOk, EndedOk, Parse, TableOk, LogsOk;
    var id, m := t.nextId, logs[t.nextId := NEW_LOG];
    NotYetUsed(cfg, t, logs);
    LiveAreTracked(cfg, t, logs);
    AcceptTable(cfg, t, true);
    NewLive(cfg, u, m, id);
    LoggedNext(t, u, logs, NEW_LOG);
    forall i | i in u.flows && i != id ensures i in u.connections && i in m && LiveOk(cfg, u, m, Polling, i) {
      LiveCarries(cfg, t, u, logs, m, Polling, Polling, i);
    }
  }

  lemma NotYetUsed(cfg: Config, t: Table, logs: map<nat, Log>)
    requires TableOk(cfg, t) && LogsOk(t, logs)
    ensures t.nextId !in t.connections && t.nextId !in t.flows && t.nextId !in logs && t.nextId >= 1
  {
    hide Parse;
  }

  lemma RefusedResult(cfg: Config, t: Table, u: Table)
    requires TableOk(cfg, t) && t.nextId !in t.connections && t.nextId !in t.flows
    requires Accept(cfg.maxConnections, t, false) == (u, Refused)
    ensures u == t.(nextId := t.nextId + 1) && t.nextId < LAST_ID
  {
    assert t.connections - {t.nextId} == t.connections && t.flows - {t.nextId} == t.flows;
  }

  lemma RefusedEnds(cfg: Config)
    ensures EndedOk(cfg, NEW_LOG.(ending := Aborted)) && NEW_LOG.parsed == Parse(NEW_LOG.received)
  {
    EmptyStream();
  }

  lemma RefusedOk(cfg: Config, t: Table, u: Table, logs: map<nat, Log>)
    requires ConnectionsOk(cfg, t, logs, Polling) && Accept(cfg.maxConnections, t, false) == (u, Refused)
    ensures ConnectionsOk(cfg, u, logs[t.nextId := NEW_LOG.(ending := Aborted)], Failed)
    ensures u == t.(nextId := t.nextId + 1)
  {
    hide LiveOk, EndedOk, Parse, TableOk, LogsOk;
    var id, log := t.nextId, NEW_LOG.(ending := Aborted);
    var m := logs[id := log];
    NotYetUsed(cfg, t, logs);
    RefusedResult(cfg, t, u);
    RefusedEnds(cfg);
    AcceptTable(cfg, t, false);
    LiveAreTracked(cfg, t, logs);
    LoggedNext(t, u, logs, log);
    forall i | i in u.flows ensures LiveOk(cfg, u, m, Failed, i) {
      LiveCarries(cfg, t, u, logs, m, Polling, Failed, i);
    }
  }

  /** A new id has no work under way, because all work is for ids already given out. */
  lemma ArriveConserves(cfg: Config, t: Table, logs: map<nat, Log>, log: Log, out: multiset<WorkResult>)
    requires LogsOk(t, logs) && ConservedOk(cfg, t.flows, logs, Polling, out)
    requires log.parsed.messages == []
    ensures ConservedOk(cfg, t.flows[t.nextId := NEW_FLOW.(registered := true)], logs[t.nextId := log], Polling, out)
  {
    hide Parse;
    var id := t.nextId;
    assert id !in logs;
    assert AuthenticOk(cfg, logs[id := log], out);
    assert AccountedOk(cfg, NEW_FLOW.(registered := true), log, 0, id, out);
    hide AuthenticOk, AccountedOk;
    Reaccount(cfg, t.flows, logs, Polling, out, id, NEW_FLOW.(registered := true), log, Polling, out);
  }

  lemma RefusedConserves(cfg: Config, t: Table, logs: map<nat, Log>, log: Log, out: multiset<WorkResult>)
    requires LogsOk(t, logs) && ConservedOk(cfg, t.flows, logs, Polling, out)
    ensures ConservedOk(cfg, t.flows, logs[t.nextId := log], Failed, out)
  {
    hide Parse;
    var id, m := t.nextId, logs[t.nextId := log];
    assert id !in logs;
    AuthenticStays(cfg, logs, m, out);
    hide AuthenticOk, AccountedOk;
    assert forall i :: i in t.flows ==> m[i] == logs[i] && Ahead(Failed, i) == Ahead(Polling, i);
  }

  /** The log of `id` once all connections are closed. */
  function Aborting(t: Table, id: nat, log: Log): Log {
    if id in t.flows then log.(ending := Aborted) else log
  }

  lemma AbortedEnds(cfg: Config, t: Table, logs: map<nat, Log>, pc: Pc, id: nat)
    requires ConnectionsOk(cfg, t, logs, pc) && id in logs
    ensures EndedOk(cfg, Aborting(t, id, logs[id]))
  {
    hide Parse;
    if id in t.flows {
      LiveFacts(cfg, t, logs, pc, id);
      EndsOk(cfg, t.connections[id], t.flows[id], logs[id], false);
    }
  }

  lemma ShutdownLogs(t: Table, logs: map<nat, Log>)
    requires LogsOk(t, logs)
    ensures LogsOk(EMPTY_TABLE.(nextId := t.nextId), map id | id in logs :: Aborting(t, id, logs[id]))
  {
    hide Parse;
  }

  lemma EmptyTableOk(cfg: Config, t: Table, order: seq<nat>)
    requires TableOk(cfg, t) && RemoveAll(t, order).flows == map[]
    ensures RemoveAll(t, order) == EMPTY_TABLE.(nextId := t.nextId)
    ensures TableOk(cfg, EMPTY_TABLE.(nextId := t.nextId))
  {
    hide RemoveAll;
    ClosingEmpties(t, order);
  }

  lemma ShutdownOk(cfg: Config, s: State, order: seq<nat>)
    requires ConnectionsOk(cfg, s.table, s.logs, s.pc)
    ensures var s' := ShutdownStep(s, order);
            ConnectionsOk(cfg, s'.table, s'.logs, s'.pc)
  {
    hide TableOk, LogsOk, EndedOk, LiveOk, RemoveAll;
    if RemoveAll(s.table, order).flows == map[] {
      var m := map id | id in s.logs :: Aborting(s.table, id, s.logs[id]);
      assert ShutdownStep(s, order).logs == m;
      EmptyTableOk(cfg, s.table, order);
      ShutdownLogs(s.table, s.logs);
      forall id | id in m ensures EndedOk(cfg, m[id]) {
        AbortedEnds(cfg, s.table, s.logs, s.pc, id);
      }
    }
  }

  lemma ShutdownConserves(cfg: Config, s: State, order: seq<nat>, out: multiset<WorkResult>)
    requires ConservedOk(cfg, s.table.flows, s.logs, s.pc, out)
    ensures var s' := ShutdownStep(s, order);
            ConservedOk(cfg, s'.table.flows, s'.logs, s'.pc, out)
  {
    hide RemoveAll, AuthenticOk, AccountedOk;
    var s' := ShutdownStep(s, order);
    if RemoveAll(s.table, order).flows == map[] {
      assert forall id :: id in s.logs ==> id in s'.logs && Requests(s'.logs[id]) == Requests(s.logs[id]);
      AuthenticStays(cfg, s.logs, s'.logs, out);
    }
  }
}
