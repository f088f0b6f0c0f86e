/** What the reactor thread owns: the connection registry, the flow of each connection
    and the epoll interest set, with the operations its handlers are made of. */
module Reactors {
  import opened Codec
  import opened Streams
  import opened Connections

  /** The options of a server, and the function its workers compute. */
  datatype Config = Config(
    respond: Message -> Message,
    maxInput: nat, maxOutput: nat, readBudget: nat, writeBudget: nat,
    maxConnections: nat, maxInFlight: nat, queueCapacity: nat, workerCount: nat)
  {
    /** What the constructors of the server, the pool and the queue insist on. */
    predicate Valid() {
      && maxInput > 0 && maxOutput > 0 && readBudget > 0 && writeBudget > 0
      && maxConnections > 0 && maxInFlight > 0 && queueCapacity > 0 && workerCount > 0
    }
  }

  datatype WorkItem = WorkItem(id: nat, sequence: nat, request: Message)
  datatype WorkResult = WorkResult(id: nat, sequence: nat, response: Message)

  /** The bytes a connection has buffered: received but no frame yet, queued but not sent. */
  datatype ConnState = ConnState(input: seq<Byte>, output: seq<Byte>)

  datatype Flow = Flow(
    nextRequest: nat, nextResponse: nat, completed: map<nat, Message>,
    closeAfterFlush: bool, registered: bool)

  datatype Interest = Interest(read: bool, write: bool)

  datatype Table = Table(
    connections: map<nat, ConnState>, flows: map<nat, Flow>, epoll: map<nat, Interest>, nextId: nat)

  /** How a connection ended, if it did: all of its responses were sent, or it was cut off. */
  datatype Ending = Open | Drained | Aborted

  // Connection ids share the 64-bit key space of epoll with three reserved keys.
  const LISTENER_KEY := 0
  const WORKER_WAKEUP_KEY := 0xFFFF_FFFF_FFFF_FFFF
  const SHUTDOWN_SIGNAL_KEY := 0xFFFF_FFFF_FFFF_FFFE
  const LAST_ID := 0xFFFF_FFFF_FFFF_FFFF
  const MAX_ACCEPTS_PER_EVENT := 64

  const EMPTY_TABLE := Table(map[], map[], map[], 1)
  const NEW_CONNECTION := ConnState([], [])
  const NEW_FLOW := Flow(0, 0, map[], false, false)

  // ------------------------------------------------- the operations as functions

  function Remove(t: Table, id: nat): Table {
    if id !in t.connections then t
    else
      var registered := id !in t.flows || t.flows[id].registered;
      t.(connections := t.connections - {id}, flows := t.flows - {id},
         epoll := if registered then t.epoll - {id} else t.epoll)
  }

  predicate ShouldClose(c: ConnState, f: Flow) {
    f.closeAfterFlush && c.output == [] && f.nextResponse >= f.nextRequest
  }

  /** The interest a connection in this state should have; None for no registration. */
  function WantedInterest(c: ConnState, f: Flow): Option<Interest> {
    if f.closeAfterFlush && c.output == [] then None
    else Some(Interest(!f.closeAfterFlush, c.output != []))
  }

  function UpdatedInterest(t: Table, id: nat): Table
    requires id in t.connections && id in t.flows
  {
    match WantedInterest(t.connections[id], t.flows[id])
    case None =>
      if t.flows[id].registered then
        t.(epoll := t.epoll - {id}, flows := t.flows[id := t.flows[id].(registered := false)])
      else t
    case Some(interest) =>
      t.(epoll := t.epoll[id := interest], flows := t.flows[id := t.flows[id].(registered := true)])
  }

  function Put(t: Table, id: nat, c: ConnState, f: Flow): Table {
    t.(connections := t.connections[id := c], flows := t.flows[id := f])
  }

  /** How every handler leaves a connection: removed because the event failed, removed
      because a half-closed client has been sent everything, or with updated interest. */
  function Settle(t: Table, id: nat, c: ConnState, f: Flow, abort: bool): (r: (Table, Ending))
    ensures r.0.nextId == t.nextId
  {
    var u := Put(t, id, c, f);
    if abort then (Remove(u, id), Aborted)
    else if ShouldClose(c, f) then (Remove(u, id), Drained)
    else (UpdatedInterest(u, id), Open)
  }

  /** The flow once its next response is queued. */
  function FlushedOne(f: Flow): Flow {
    f.(nextResponse := f.nextResponse + 1, completed := f.completed - {f.nextResponse})
  }

  datatype FlushResult = FlushResult(connection: ConnState, flow: Flow, ok: bool)

  /** Queues the completed responses that are next in order, until one is missing or one
      is refused. */
  function FlushLoop(maxOutput: nat, c: ConnState, f: Flow): FlushResult
    decreases |f.completed|
  {
    var k := f.nextResponse;
    if k !in f.completed then FlushResult(c, f, true)
    else
      match Queued(maxOutput, c.output, f.completed[k])
      case None => FlushResult(c, f, false)
      case Some(output) =>
        assert |f.completed - {k}| < |f.completed| by { Shrinks(f.completed, k); }
        FlushLoop(maxOutput, c.(output := output), FlushedOne(f))
  }

  lemma Shrinks<T, U>(m: map<T, U>, k: T)
    requires k in m
    ensures |m - {k}| < |m|
  {
    assert (m - {k}).Keys == m.Keys - {k};
  }

  lemma Overwritten<T, U>(m: map<T, U>, k: T, first: U, second: U)
    ensures m[k := first][k := second] == m[k := second]
    ensures m[k := first] - {k} == m - {k}
  {}

  function Flush(maxOutput: nat, t: Table, id: nat): (Table, Ending)
    requires id in t.connections && id in t.flows
  {
    var r := FlushLoop(maxOutput, t.connections[id], t.flows[id]);
    Settle(t, id, r.connection, r.flow, !r.ok)
  }

  /** A result reaches the reactor; `emplace` keeps an entry that is already there. */
  function Complete(maxOutput: nat, t: Table, result: WorkResult): (Table, Ending) {
    if result.id !in t.connections || result.id !in t.flows then (t, Open)
    else
      Flush(maxOutput, t.(flows := t.flows[result.id := WithResult(t.flows[result.id], result)]), result.id)
  }

  /** The end of a connection event: the status of the read and the outcome of the write,
      which happens only if it was asked for and the read was not rejected. */
  function Conclude(t: Table, id: nat, status: ReadStatus, writable: bool,
                    sent: nat, wrote: WriteStatus): (Table, Ending)
    requires id in t.connections && id in t.flows
    requires sent <= |t.connections[id].output|
  {
    var c, f := t.connections[id], t.flows[id];
    if status.ReadProtocolError? then Settle(t, id, c, f, true)
    else
      var f' := if status.ReadPeerClosed? then f.(closeAfterFlush := true) else f;
      if writable then
        Settle(t, id, c.(output := c.output[sent..]), f', wrote.WritePeerClosed?)
      else
        Settle(t, id, c, f', false)
  }

  datatype AcceptResult = TurnedAway | Joined | Refused | OutOfIds

  /** The maps with a new connection in all three. */
  function JoinedTable(t: Table): Table {
    Table(t.connections[t.nextId := NEW_CONNECTION], t.flows[t.nextId := NEW_FLOW.(registered := true)],
          t.epoll[t.nextId := Interest(true, false)], t.nextId + 1)
  }

  /** One accepted socket: turned away at the connection limit, registered under the next
      id, or taken back out of both maps because epoll refused it, its id being spent. In
      the last two cases the source throws. */
  function Accept(maxConnections: nat, t: Table, registers: bool): (Table, AcceptResult) {
    if |t.connections| >= maxConnections then (t, TurnedAway)
    else if t.nextId == LAST_ID then (t, OutOfIds)
    else if registers then (JoinedTable(t), Joined)
    else
      (t.(connections := t.connections - {t.nextId}, flows := t.flows - {t.nextId}, nextId := t.nextId + 1), Refused)
  }

  function AcceptMany(maxConnections: nat, t: Table, registers: seq<bool>): Table {
    if registers == [] then t
    else
      var n := |registers| - 1;
      Accept(maxConnections, AcceptMany(maxConnections, t, registers[..n]), registers[n]).0
  }

  // --------------------------------------------- what the operations keep true

  /** The interest set has for `id` what the state of the connection calls for. */
  ghost predicate InterestOk(t: Table, id: nat)
    requires t.connections.Keys == t.flows.Keys && id in t.flows
  {
    && (t.flows[id].registered <==> id in t.epoll)
    && (if id in t.epoll then Some(t.epoll[id]) else None) == WantedInterest(t.connections[id], t.flows[id])
  }

  /** The registry, the flow map and the interest set agree; ids are below the next one. */
  ghost predicate Coherent(t: Table) {
    && t.connections.Keys == t.flows.Keys
    && t.epoll.Keys <= t.flows.Keys
    && 1 <= t.nextId <= LAST_ID
    && (forall id :: id in t.flows ==> 1 <= id < t.nextId)
    && (forall id :: id in t.flows ==> InterestOk(t, id))
  }

  /** In the middle of a handler for `but`, its interest may be out of date. */
  ghost predicate CoherentBut(t: Table, but: nat) {
    && t.connections.Keys == t.flows.Keys
    && t.epoll.Keys <= t.flows.Keys
    && 1 <= t.nextId <= LAST_ID
    && (forall id :: id in t.flows ==> 1 <= id < t.nextId)
    && (but in t.flows ==> (t.flows[but].registered <==> but in t.epoll))
    && (forall id :: id in t.flows && id != but ==> InterestOk(t, id))
  }

  /** Nothing but the connection `id` differs. */
  ghost predicate OthersKept(t: Table, u: Table, id: nat) {
    && u.nextId == t.nextId
    && u.connections - {id} == t.connections - {id}
    && u.flows - {id} == t.flows - {id}
    && u.epoll - {id} == t.epoll - {id}
  }

  /** The connection `id` is in none of the three maps. */
  predicate Gone(t: Table, id: nat) {
    id !in t.connections && id !in t.flows && id !in t.epoll
  }

  lemma CoherentIsEnough(t: Table, id: nat)
    requires Coherent(t)
    ensures CoherentBut(t, id)
  {
    assert id in t.flows ==> InterestOk(t, id);
  }

  /** Handling a connection leaves the others, and what is said of them. */
  lemma PutCoheres(t: Table, id: nat, c: ConnState, f: Flow)
    requires CoherentBut(t, id) && id in t.flows && f.registered == t.flows[id].registered
    ensures CoherentBut(Put(t, id, c, f), id) && OthersKept(t, Put(t, id, c, f), id)
  {
    var u := Put(t, id, c, f);
    forall i | i in u.flows && i != id ensures InterestOk(u, i) {
      assert InterestOk(t, i);
    }
  }

  lemma SameTable(t: Table, id: nat)
    ensures OthersKept(t, t, id)
  {}

  lemma RemoveIsLocal(t: Table, id: nat)
    ensures OthersKept(t, Remove(t, id), id)
  {}

  lemma RemoveCoheres(t: Table, id: nat)
    requires CoherentBut(t, id)
    ensures Coherent(Remove(t, id)) && Gone(Remove(t, id), id)
  {
    var u := Remove(t, id);
    forall i | i in u.flows ensures InterestOk(u, i) {
      assert InterestOk(t, i);
    }
  }

  lemma UpdateIsLocal(t: Table, id: nat)
    requires id in t.connections && id in t.flows
    ensures OthersKept(t, UpdatedInterest(t, id), id)
    ensures UpdatedInterest(t, id).connections == t.connections
    ensures UpdatedInterest(t, id).flows.Keys == t.flows.Keys
  {}

  lemma UpdateCoheres(t: Table, id: nat)
    requires CoherentBut(t, id) && id in t.connections && id in t.flows
    ensures Coherent(UpdatedInterest(t, id))
  {
    var u := UpdatedInterest(t, id);
    forall i | i in u.flows && i != id ensures InterestOk(u, i) {
      assert InterestOk(t, i);
    }
  }

  lemma KeptTwice(t: Table, u: Table, v: Table, id: nat)
    requires OthersKept(t, u, id) && OthersKept(u, v, id)
    ensures OthersKept(t, v, id)
  {}

  /** However a handler settles its connection, the three maps agree again. */
  lemma SettleCoheres(t: Table, id: nat, c: ConnState, f: Flow, abort: bool)
    requires id in t.connections && id in t.flows
    ensures var (u, e) := Settle(t, id, c, f, abort);
            && OthersKept(t, u, id)
            && (e.Open? <==> id in u.connections)
            && (CoherentBut(t, id) && f.registered == t.flows[id].registered ==>
                  Coherent(u) && (!e.Open? ==> Gone(u, id)))
  {
    hide CoherentBut, Coherent, OthersKept, UpdatedInterest;
    var v := Put(t, id, c, f);
    assert OthersKept(t, v, id) by { PutIsLocal(t, id, c, f); }
    RemoveIsLocal(v, id);
    UpdateIsLocal(v, id);
    KeptTwice(t, v, Remove(v, id), id);
    KeptTwice(t, v, UpdatedInterest(v, id), id);
    if CoherentBut(t, id) && f.registered == t.flows[id].registered {
      PutCoheres(t, id, c, f);
      RemoveCoheres(v, id);
      UpdateCoheres(v, id);
    }
  }

  lemma PutIsLocal(t: Table, id: nat, c: ConnState, f: Flow)
    ensures OthersKept(t, Put(t, id, c, f), id)
  {}

  // ------------------------------------------------------------ the flush as a run

  /** The responses held for the sequence numbers from the next one to `end`. */
  function ReadyRun(f: Flow, end: nat): seq<Message>
    requires f.nextResponse <= end
    requires forall k :: f.nextResponse <= k < end ==> k in f.completed
  {
    seq(end - f.nextResponse, i requires 0 <= i < end - f.nextResponse => f.completed[f.nextResponse + i])
  }

  /** The flow after an unbroken run of responses, which alone left the reorder map. */
  ghost predicate Flushed(f: Flow, after: Flow) {
    var end := after.nextResponse;
    && f.nextResponse <= end
    && (forall k :: f.nextResponse <= k < end ==> k in f.completed)
    && after == f.(nextResponse := end, completed := after.completed)
    && after.completed == (map k | k in f.completed && !(f.nextResponse <= k < end) :: f.completed[k])
  }

  /** What a flush comes to, said without its loop: the frames of an unbroken run of responses
      are added to the output, these responses alone leave the reorder map, and the run ends
      at the first gap or at a response that cannot be queued. */
  ghost predicate FlushedRun(maxOutput: nat, c: ConnState, f: Flow, r: FlushResult) {
    var end := r.flow.nextResponse;
    && Flushed(f, r.flow)
    && (forall k :: f.nextResponse <= k < end ==> Encodable(f.completed[k]))
    && r.connection == c.(output := c.output + EncodeAll(ReadyRun(f, end)))
    && (r.ok <==> end !in f.completed)
    && (!r.ok ==> Queued(maxOutput, r.connection.output, f.completed[end]).None?)
    && (|c.output| <= maxOutput ==> |r.connection.output| <= maxOutput)
  }

  lemma FlushedNone(maxOutput: nat, c: ConnState, f: Flow)
    requires f.nextResponse in f.completed ==> Queued(maxOutput, c.output, f.completed[f.nextResponse]).None?
    ensures FlushedRun(maxOutput, c, f, FlushResult(c, f, f.nextResponse !in f.completed))
  {
    hide Queued, EncodeAll;
    NoFrames();
    assert ReadyRun(f, f.nextResponse) == [] && c.output + [] == c.output;
  }

  lemma FlushedMore(maxOutput: nat, c: ConnState, f: Flow, output: seq<Byte>, r: FlushResult)
    requires f.nextResponse in f.completed && output == c.output + Frame(f.completed[f.nextResponse])
    requires |output| <= maxOutput && Encodable(f.completed[f.nextResponse])
    requires FlushedRun(maxOutput, c.(output := output), FlushedOne(f), r)
    ensures FlushedRun(maxOutput, c, f, r)
  {
    hide Queued, EncodeAll, Frame, Encodable;
    var k, end := f.nextResponse, r.flow.nextResponse;
    var g := FlushedOne(f);
    forall i | k <= i < end ensures i in f.completed && Encodable(f.completed[i]) {
      assert i == k || i in g.completed;
    }
    assert ReadyRun(f, end) == [f.completed[k]] + ReadyRun(g, end);
    MoreFrames(c.output, f.completed[k], ReadyRun(g, end));
    assert end in g.completed <==> end in f.completed;
  }

  lemma {:induction false} FlushLoopRun(maxOutput: nat, c: ConnState, f: Flow)
    ensures FlushedRun(maxOutput, c, f, FlushLoop(maxOutput, c, f))
    decreases |f.completed|
  {
    hide EncodeMessage, FlushedRun;
    var k := f.nextResponse;
    if k !in f.completed || Queued(maxOutput, c.output, f.completed[k]).None? {
      FlushedNone(maxOutput, c, f);
    } else {
      var output := Queued(maxOutput, c.output, f.completed[k]).value;
      Shrinks(f.completed, k);
      FlushLoopRun(maxOutput, c.(output := output), FlushedOne(f));
      FlushedMore(maxOutput, c, f, output, FlushLoop(maxOutput, c, f));
    }
  }

  lemma NoFrames()
    ensures EncodeAll([]) == []
  {}

  lemma MoreFrames(output: seq<Byte>, m: Message, ms: seq<Message>)
    ensures output + EncodeAll([m] + ms) == (output + Frame(m)) + EncodeAll(ms)
  {
    hide Concat, Frame;
    ConcatCons(Frame, m, ms, []);
    assert EncodeAll([m] + ms) + [] == EncodeAll([m] + ms) && EncodeAll(ms) + [] == EncodeAll(ms);
    Associative(output, Frame(m), EncodeAll(ms));
  }

  /** A flush leaves the maps in agreement, and a connection that stays has been flushed. */
  lemma FlushSettles(maxOutput: nat, t: Table, id: nat)
    requires id in t.connections && id in t.flows
    ensures var (u, e) := Flush(maxOutput, t, id);
            && OthersKept(t, u, id)
            && (e.Open? <==> id in u.connections)
            && (e.Open? <==> Survives(FlushLoop(maxOutput, t.connections[id], t.flows[id])))
            && (CoherentBut(t, id) ==> Coherent(u) && (!e.Open? ==> Gone(u, id)))
            && (e.Open? ==> id in u.flows && var f := t.flows[id];
                            FlushedRun(maxOutput, t.connections[id], f,
                                       FlushResult(u.connections[id], u.flows[id].(registered := f.registered), true)))
  {
    hide Coherent, CoherentBut, OthersKept, FlushLoop, EncodeAll, Queued;
    var r := FlushLoop(maxOutput, t.connections[id], t.flows[id]);
    FlushLoopRun(maxOutput, t.connections[id], t.flows[id]);
    SettleCoheres(t, id, r.connection, r.flow, !r.ok);
    hide FlushedRun;
    SettledEntry(t, id, r.connection, r.flow, !r.ok);
    assert r.flow.registered == t.flows[id].registered;
  }

  /** The flush was not refused a response, and has not sent a half-closed client everything. */
  predicate Survives(r: FlushResult) {
    && r.ok
    && !(r.flow.closeAfterFlush && r.connection.output == [] && r.flow.nextResponse >= r.flow.nextRequest)
  }

  lemma SettledEntry(t: Table, id: nat, c: ConnState, f: Flow, abort: bool)
    ensures var (u, e) := Settle(t, id, c, f, abort);
            e.Open? ==>
              && id in u.connections && u.connections[id] == c
              && id in u.flows && u.flows[id] == f.(registered := u.flows[id].registered)
              && !ShouldClose(c, f)
    ensures Settle(t, id, c, f, abort).1.Open? <==> !abort && !ShouldClose(c, f)
  {}

  /** The flow with one more response; one that is there already is kept. */
  function WithResult(f: Flow, result: WorkResult): (g: Flow)
    ensures result.sequence in f.completed ==> g == f
    ensures result.sequence !in f.completed ==> g == f.(completed := f.completed[result.sequence := result.response])
  {
    f.(completed := if result.sequence in f.completed then f.completed
                    else f.completed[result.sequence := result.response])
  }

  lemma CompleteCoheres(maxOutput: nat, t: Table, result: WorkResult)
    ensures OthersKept(t, Complete(maxOutput, t, result).0, result.id)
    ensures Coherent(t) ==> Coherent(Complete(maxOutput, t, result).0)
    ensures result.id !in t.connections || result.id !in t.flows ==> Complete(maxOutput, t, result).0 == t
    ensures result.id in t.connections && result.id in t.flows ==>
              var u, c, f := Complete(maxOutput, t, result).0, t.connections[result.id], t.flows[result.id];
              && (result.id in u.connections <==> Survives(FlushLoop(maxOutput, c, WithResult(f, result))))
              && (result.id in u.connections ==>
                    result.id in u.flows &&
                    FlushedRun(maxOutput, c, WithResult(f, result),
                               FlushResult(u.connections[result.id],
                                           u.flows[result.id].(registered := f.registered), true)))
  {
    hide Flush, FlushedRun, OthersKept, Coherent, CoherentBut, FlushLoop, Survives;
    var id := result.id;
    if id in t.connections && id in t.flows {
      var f := WithResult(t.flows[id], result);
      var u := Put(t, id, t.connections[id], f);
      assert u == t.(flows := t.flows[id := f]);
      PutIsLocal(t, id, t.connections[id], f);
      FlushSettles(maxOutput, u, id);
      KeptTwice(t, u, Complete(maxOutput, t, result).0, id);
      if Coherent(t) {
        CoherentIsEnough(t, id);
        PutCoheres(t, id, t.connections[id], f);
      }
    } else {
      assert OthersKept(t, t, id) by { SameTable(t, id); }
    }
  }

  /** What the end of a connection event comes to. */
  lemma ConcludeCoheres(t: Table, id: nat, status: ReadStatus, writable: bool, sent: nat, wrote: WriteStatus)
    requires id in t.connections && id in t.flows && sent <= |t.connections[id].output|
    ensures var (u, e) := Conclude(t, id, status, writable, sent, wrote);
            && OthersKept(t, u, id)
            && (CoherentBut(t, id) ==> Coherent(u) && (id in u.connections || Gone(u, id)))
            && (id in u.connections <==>
                  !(|| status.ReadProtocolError?
                    || (writable && wrote.WritePeerClosed?)
                    || (&& (t.flows[id].closeAfterFlush || status.ReadPeerClosed?)
                        && t.connections[id].output[if writable then sent else 0..] == []
                        && t.flows[id].nextResponse >= t.flows[id].nextRequest)))
            && (id in u.connections && id in u.flows ==>
                  && u.flows[id].closeAfterFlush == (t.flows[id].closeAfterFlush || status.ReadPeerClosed?)
                  && u.flows[id] == t.flows[id].(closeAfterFlush := u.flows[id].closeAfterFlush,
                                                 registered := u.flows[id].registered)
                  && u.connections[id].input == t.connections[id].input
                  && u.connections[id].output == t.connections[id].output[if writable then sent else 0..]
                  && !ShouldClose(u.connections[id], u.flows[id]))
  {
    hide Coherent, CoherentBut, OthersKept, Settle;
    var c, f := t.connections[id], t.flows[id];
    var f' := if status.ReadPeerClosed? then f.(closeAfterFlush := true) else f;
    var c' := if writable then c.(output := c.output[sent..]) else c;
    var abort := status.ReadProtocolError? || (writable && wrote.WritePeerClosed?);
    SettleCoheres(t, id, c', f', abort);
    SettleCoheres(t, id, c, f, true);
    SettledEntry(t, id, c', f', abort);
    SettledEntry(t, id, c, f, true);
  }

  // ---------------------------------------------------------------------- closing

  lemma RemoveShrinks(t: Table, id: nat)
    requires id in t.flows && id in t.connections
    ensures |Remove(t, id).flows| < |t.flows|
  {
    Shrinks(t.flows, id);
  }

  /** Removing one connection after the other. */
  function RemoveAll(t: Table, order: seq<nat>): (u: Table)
    ensures u.nextId == t.nextId
  {
    if order == [] then t else Remove(RemoveAll(t, order[..|order| - 1]), order[|order| - 1])
  }

  lemma {:induction false} RemoveAllCons(t: Table, id: nat, order: seq<nat>)
    ensures RemoveAll(t, [id] + order) == RemoveAll(Remove(t, id), order)
  {
    hide Remove;
    if order == [] {
      assert [id] + order == [id] && [id][..0] == [];
    } else {
      var n := |order| - 1;
      RemoveAllCons(t, id, order[..n]);
      assert ([id] + order)[..n + 1] == [id] + order[..n];
    }
  }

  /** A flow without a connection survives any number of removals. */
  lemma {:induction false} StrandedFlow(t: Table, order: seq<nat>, id: nat)
    requires id in t.flows && id !in t.connections
    ensures id in RemoveAll(t, order).flows && id !in RemoveAll(t, order).connections
  {
    if order != [] {
      StrandedFlow(t, order[..|order| - 1], id);
    }
  }

  /** Removing flows one by one empties the map, in any order, if each has a connection. */
  lemma {:induction false} ClosingOrder(t: Table) returns (order: seq<nat>)
    requires t.flows.Keys <= t.connections.Keys
    ensures RemoveAll(t, order).flows == map[]
    decreases |t.flows|
  {
    if t.flows == map[] {
      order := [];
    } else {
      var id :| id in t.flows;
      Shrinks(t.flows, id);
      var rest := ClosingOrder(Remove(t, id));
      RemoveAllCons(t, id, rest);
      order := [id] + rest;
    }
  }

  /** Closing all connections can come to an end exactly if every flow has a connection. */
  lemma {:induction false} ClosingEndsIff(t: Table)
    ensures (exists order :: RemoveAll(t, order).flows == map[]) <==> t.flows.Keys <= t.connections.Keys
  {
    if t.flows.Keys <= t.connections.Keys {
      var order := ClosingOrder(t);
    } else {
      var id :| id in t.flows && id !in t.connections;
      forall order ensures RemoveAll(t, order).flows != map[] {
        StrandedFlow(t, order, id);
      }
    }
  }

  /** Where closing ends, when it starts from maps that agree: all three are empty. */
  lemma {:induction false} ClosingEmpties(t: Table, order: seq<nat>)
    requires Coherent(t)
    ensures Coherent(RemoveAll(t, order))
    ensures RemoveAll(t, order).flows == map[] ==> RemoveAll(t, order) == EMPTY_TABLE.(nextId := t.nextId)
  {
    if order != [] {
      hide Coherent, Remove;
      var u, id := RemoveAll(t, order[..|order| - 1]), order[|order| - 1];
      ClosingEmpties(t, order[..|order| - 1]);
      CoherentIsEnough(u, id);
      RemoveCoheres(u, id);
    }
    NoneLeft(RemoveAll(t, order));
  }

  lemma NoneLeft(t: Table)
    requires Coherent(t)
    ensures t.flows == map[] ==> t == EMPTY_TABLE.(nextId := t.nextId)
  {
    if t.flows == map[] {
      assert t.connections == map[] && t.epoll == map[];
    }
  }

  // -------------------------------------------------------------------- accepting

  lemma OneMore<T, U>(m: map<T, U>, k: T, v: U)
    requires k !in m
    ensures |m[k := v]| == |m| + 1
  {
    assert m[k := v].Keys == m.Keys + {k};
  }

  /** The connections of `t` are as they were. */
  ghost predicate AllKept(t: Table, u: Table) {
    && (forall id :: id in t.connections ==> id in u.connections && u.connections[id] == t.connections[id])
    && (forall id :: id in t.flows ==> id in u.flows && u.flows[id] == t.flows[id])
  }

  /** What one more socket comes to, from maps that agree: they agree as before, no old
      connection changed, and a new one has the next id. */
  ghost predicate Accepted(maxConnections: nat, t: Table, registers: bool, u: Table, r: AcceptResult) {
    && Coherent(u) && AllKept(t, u)
    && r == (if |t.connections| >= maxConnections then TurnedAway
             else if t.nextId == 0xFFFF_FFFF_FFFF_FFFF then OutOfIds
             else if registers then Joined else Refused)
    && (if r.Joined? then
          && u.nextId == t.nextId + 1 && u.connections.Keys == t.connections.Keys + {t.nextId}
          && u.connections[t.nextId] == ConnState([], []) && t.nextId in u.flows
          && u.flows[t.nextId] == Flow(0, 0, map[], false, true)
        else u == t.(nextId := t.nextId + if r.Refused? then 1 else 0))
    && (|t.connections| <= maxConnections ==> |u.connections| <= maxConnections)
  }

  lemma NextIsFree(t: Table)
    requires Coherent(t)
    ensures Gone(t, t.nextId)
  {}

  lemma SpentCoheres(t: Table)
    requires Coherent(t) && t.nextId < LAST_ID
    ensures Coherent(t.(nextId := t.nextId + 1))
  {
    var u := t.(nextId := t.nextId + 1);
    forall i | i in u.flows ensures InterestOk(u, i) {
      assert InterestOk(t, i);
    }
  }

  lemma JoinCoheres(t: Table)
    requires Coherent(t) && t.nextId < LAST_ID
    ensures Coherent(JoinedTable(t))
  {
    var u := JoinedTable(t);
    forall i | i in u.flows ensures InterestOk(u, i) {
      if i != t.nextId {
        assert InterestOk(t, i);
      }
    }
  }

  lemma JoinKeeps(t: Table)
    requires Gone(t, t.nextId)
    ensures AllKept(t, JoinedTable(t))
    ensures JoinedTable(t).connections.Keys == t.connections.Keys + {t.nextId}
    ensures |JoinedTable(t).connections| == |t.connections| + 1
  {
    OneMore(t.connections, t.nextId, NEW_CONNECTION);
  }

  lemma RefusedUndone(t: Table)
    requires Gone(t, t.nextId)
    ensures t.connections - {t.nextId} == t.connections && t.flows - {t.nextId} == t.flows
  {}

  lemma JoinAccepted(maxConnections: nat, t: Table)
    requires Coherent(t) && t.nextId < LAST_ID && |t.connections| < maxConnections
    ensures Accepted(maxConnections, t, true, JoinedTable(t), Joined)
  {
    hide Coherent, AllKept;
    NextIsFree(t);
    JoinCoheres(t);
    JoinKeeps(t);
  }

  lemma SpentAccepted(maxConnections: nat, t: Table, registers: bool)
    requires Coherent(t)
    ensures |t.connections| >= maxConnections ==> Accepted(maxConnections, t, registers, t, TurnedAway)
    ensures |t.connections| < maxConnections && t.nextId == LAST_ID ==>
              Accepted(maxConnections, t, registers, t, OutOfIds)
    ensures |t.connections| < maxConnections && t.nextId < LAST_ID ==>
              Accepted(maxConnections, t, false, t.(nextId := t.nextId + 1), Refused)
  {
    hide Coherent, AllKept;
    KeptAll(t, t, t);
    if t.nextId < LAST_ID {
      SpentCoheres(t);
    }
  }

  lemma AcceptCoheres(maxConnections: nat, t: Table, registers: bool)
    requires Coherent(t)
    ensures var (u, r) := Accept(maxConnections, t, registers);
            Accepted(maxConnections, t, registers, u, r)
  {
    hide Coherent, Accepted, JoinedTable;
    NextIsFree(t);
    IdsInRange(t);
    var (u, r) := Accept(maxConnections, t, registers);
    if r.Joined? {
      JoinAccepted(maxConnections, t);
    } else {
      RefusedUndone(t);
      SpentAccepted(maxConnections, t, registers);
    }
  }

  lemma AcceptWhenValid(maxConnections: nat, t: Table, registers: bool)
    ensures var (u, r) := Accept(maxConnections, t, registers);
            Coherent(t) ==> Coherent(u) && Accepted(maxConnections, t, registers, u, r)
  {
    hide Coherent, AllKept, Accept;
    if Coherent(t) {
      AcceptCoheres(maxConnections, t, registers);
    }
  }

  lemma IdsInRange(t: Table)
    requires Coherent(t)
    ensures t.nextId <= LAST_ID
    ensures forall id :: id in t.connections ==> 1 <= id < LAST_ID && id < t.nextId
  {}

  /** Any number of sockets. Ids strictly increase and old connections are left alone; and
      the key of a connection is one of the reserved epoll keys exactly if it is the last id
      that the guard on exhaustion lets through. */
  lemma {:induction false} IdsAndReservedKeys(maxConnections: nat, t: Table, registers: seq<bool>)
    requires Coherent(t)
    ensures var u := AcceptMany(maxConnections, t, registers);
            && Coherent(u) && AllKept(t, u)
            && t.nextId <= u.nextId <= t.nextId + |registers|
            && (forall id :: id in u.connections && id !in t.connections ==> t.nextId <= id < u.nextId)
            && (forall id :: id in u.connections ==>
                  (id in {0, 0xFFFF_FFFF_FFFF_FFFF, 0xFFFF_FFFF_FFFF_FFFE} <==> id == 0xFFFF_FFFF_FFFF_FFFE))
            && (|t.connections| <= maxConnections ==> |u.connections| <= maxConnections)
  {
    hide Accept, Coherent, AllKept;
    var u := AcceptMany(maxConnections, t, registers);
    if registers == [] {
      assert AllKept(t, t) by { KeptAll(t, t, t); }
    } else {
      var n := |registers| - 1;
      IdsAndReservedKeys(maxConnections, t, registers[..n]);
      var v := AcceptMany(maxConnections, t, registers[..n]);
      AcceptCoheres(maxConnections, v, registers[n]);
      KeptAll(t, v, u);
    }
    IdsInRange(u);
  }

  lemma KeptAll(t: Table, u: Table, v: Table)
    ensures AllKept(t, t) && AllKept(t, t.(nextId := t.nextId + 1))
    ensures AllKept(t, u) && AllKept(u, v) ==> AllKept(t, v)
  {}

  /** The `i`-th of the sockets makes the source throw. */
  predicate Throws(maxConnections: nat, t: Table, registers: seq<bool>, i: nat)
    requires i < |registers|
  {
    Accept(maxConnections, AcceptMany(maxConnections, t, registers[..i]), registers[i]).1 in {Refused, OutOfIds}
  }

  /** From maps that agree, accepting keeps them so, leaves old connections alone, and stays
      within the limit. */
  ghost predicate KeepsAccepting(maxConnections: nat, t: Table, u: Table) {
    Coherent(t) ==>
      && Coherent(u) && AllKept(t, u)
      && (|t.connections| <= maxConnections ==> |u.connections| <= maxConnections)
  }

  lemma AcceptsKeep(maxConnections: nat, t: Table, registers: seq<bool>)
    ensures KeepsAccepting(maxConnections, t, AcceptMany(maxConnections, t, registers))
  {
    hide Coherent, AllKept, AcceptMany;
    if Coherent(t) {
      IdsAndReservedKeys(maxConnections, t, registers);
    }
  }

  lemma NoneAccepted(maxConnections: nat, t: Table)
    ensures AcceptMany(maxConnections, t, []) == t
  {}

  lemma OneMoreAccept(maxConnections: nat, t: Table, registers: seq<bool>, n: nat)
    requires n < |registers|
    ensures AcceptMany(maxConnections, t, registers[..n + 1])
         == Accept(maxConnections, AcceptMany(maxConnections, t, registers[..n]), registers[n]).0
  {
    hide Accept;
    assert registers[..n + 1][..n] == registers[..n];
  }

  // ---------------------------------------------------------- the reactor itself

  class Reactor {
    var connections: map<nat, ConnState>
    var flows: map<nat, Flow>
    var epoll: map<nat, Interest>
    var nextId: nat

    function View(): Table
      reads this
    {
      Table(connections, flows, epoll, nextId)
    }

    ghost predicate Valid()
      reads this
    {
      Coherent(View())
    }

    /** As a handler for `id` may find the state: the interest of `id` may be out of date. */
    ghost predicate ValidBut(id: nat)
      reads this
    {
      CoherentBut(View(), id)
    }

    constructor ()
      ensures Valid() && View() == EMPTY_TABLE
    {
      connections, flows, epoll, nextId := map[], map[], map[], 1;
    }

    method RemoveConnection(id: nat)
      modifies this
      ensures View() == Remove(old(View()), id) && OthersKept(old(View()), View(), id)
      ensures id !in old(connections) ==> View() == old(View())
      ensures id in old(connections) ==> id !in connections && id !in flows
      ensures id in old(connections) ==>
                if id in old(flows) && !old(flows[id].registered) then epoll == old(epoll) else id !in epoll
      ensures old(ValidBut(id)) ==> Valid() && Gone(View(), id)
    {
      hide Coherent, CoherentBut, OthersKept;
      RemoveIsLocal(View(), id);
      if ValidBut(id) {
        RemoveCoheres(View(), id);
      }
      if id !in connections {
        return;
      }
      var registered := id !in flows || flows[id].registered;
      if registered {
        epoll := epoll - {id};
      }
      flows := flows - {id};
      connections := connections - {id};
    }

    method UpdateInterest(id: nat)
      requires id in connections && id in flows
      modifies this
      ensures View() == UpdatedInterest(old(View()), id) && OthersKept(old(View()), View(), id)
      ensures connections == old(connections) && flows.Keys == old(flows.Keys)
      ensures var c, f := old(connections[id]), old(flows[id]);
              if f.closeAfterFlush && c.output == [] then
                flows[id] == f.(registered := false) && (if f.registered then id !in epoll else epoll == old(epoll))
              else
                && flows[id] == f.(registered := true)
                && id in epoll && epoll[id] == Interest(!f.closeAfterFlush, c.output != [])
      ensures old(ValidBut(id)) ==> Valid()
    {
      hide Coherent, CoherentBut, OthersKept;
      UpdateIsLocal(View(), id);
      if ValidBut(id) {
        UpdateCoheres(View(), id);
      }
      var wantsRead := !flows[id].closeAfterFlush;
      var wantsWrite := connections[id].output != [];
      if !wantsRead && !wantsWrite {
        if flows[id].registered {
          epoll := epoll - {id};
          flows := flows[id := flows[id].(registered := false)];
        }
        return;
      }
      epoll := epoll[id := Interest(wantsRead, wantsWrite)];
      if flows[id].registered {
        assert flows[id := flows[id].(registered := true)] == flows;
        return;
      }
      flows := flows[id := flows[id].(registered := true)];
    }

    /** Returns whether the connection is still there. If so, the unbroken run of completed
        responses was queued, and nothing is left that could be. */
    method FlushReadyResponses(maxOutput: nat, id: nat) returns (kept: bool)
      requires id in connections && id in flows
      modifies this
      ensures View() == Flush(maxOutput, old(View()), id).0 && OthersKept(old(View()), View(), id)
      ensures kept <==> id in connections
      ensures kept ==> id in flows && var c, f := old(connections[id]), old(flows[id]);
                       FlushedRun(maxOutput, c, f,
                                  FlushResult(connections[id], flows[id].(registered := f.registered), true))
      ensures kept <==> Survives(FlushLoop(maxOutput, old(connections[id]), old(flows[id])))
      ensures old(ValidBut(id)) ==> Valid() && (!kept ==> Gone(View(), id))
    {
      hide Queued, Remove, UpdatedInterest, Coherent, CoherentBut, OthersKept, FlushedRun;
      FlushSettles(maxOutput, View(), id);
      ghost var start := View();
      ghost var r := FlushLoop(maxOutput, connections[id], flows[id]);
      assert Put(start, id, connections[id], flows[id]) == start;
      while true
        invariant id in connections && id in flows
        invariant View() == Put(start, id, connections[id], flows[id])
        invariant FlushLoop(maxOutput, connections[id], flows[id]) == r
        decreases |flows[id].completed|
      {
        var f := flows[id];
        if f.nextResponse !in f.completed {
          break;
        }
        var output := Queued(maxOutput, connections[id].output, f.completed[f.nextResponse]);
        if output.None? {
          RemoveConnection(id);
          return false;
        }
        Shrinks(f.completed, f.nextResponse);
        connections := connections[id := connections[id].(output := output.value)];
        flows := flows[id := FlushedOne(f)];
      }
      if ShouldClose(connections[id], flows[id]) {
        RemoveConnection(id);
        return false;
      }
      UpdateInterest(id);
      return true;
    }

    method HandleCompletedWork(maxOutput: nat, result: WorkResult)
      modifies this
      ensures View() == Complete(maxOutput, old(View()), result).0 && OthersKept(old(View()), View(), result.id)
      ensures old(Valid()) ==> Valid()
      ensures result.id !in old(connections) || result.id !in old(flows) ==> View() == old(View())
      ensures result.id in old(connections) && result.id in old(flows) ==>
                var c, f := old(connections[result.id]), old(flows[result.id]);
                && (result.id in connections <==> Survives(FlushLoop(maxOutput, c, WithResult(f, result))))
                && (result.id in connections ==>
                      result.id in flows &&
                      FlushedRun(maxOutput, c, WithResult(f, result),
                                 FlushResult(connections[result.id],
                                             flows[result.id].(registered := f.registered), true)))
    {
      hide Coherent, CoherentBut, OthersKept, FlushedRun, Flush, FlushLoop, Survives;
      CompleteCoheres(maxOutput, View(), result);
      if result.id !in connections {
        return;
      }
      if result.id !in flows {
        return;
      }
      var f := flows[result.id];
      if result.sequence !in f.completed {
        f := f.(completed := f.completed[result.sequence := result.response]);
      }
      flows := flows[result.id := f];
      var kept := FlushReadyResponses(maxOutput, result.id);
    }

    /** The part of a connection event after the decoded messages were submitted. */
    method ConcludeConnectionEvent(id: nat, status: ReadStatus, writable: bool, sent: nat, wrote: WriteStatus)
      requires id in connections && id in flows && sent <= |connections[id].output|
      modifies this
      ensures View() == Conclude(old(View()), id, status, writable, sent, wrote).0
      ensures OthersKept(old(View()), View(), id)
      ensures old(ValidBut(id)) ==> Valid() && (id in connections || Gone(View(), id))
      ensures id in connections <==>
                !(|| status.ReadProtocolError?
                  || (writable && wrote.WritePeerClosed?)
                  || (&& (old(flows[id].closeAfterFlush) || status.ReadPeerClosed?)
                      && old(connections[id].output)[if writable then sent else 0..] == []
                      && old(flows[id].nextResponse) >= old(flows[id].nextRequest)))
      ensures id in connections && id in flows ==>
                && flows[id].closeAfterFlush == (old(flows[id].closeAfterFlush) || status.ReadPeerClosed?)
                && flows[id] == old(flows[id]).(closeAfterFlush := flows[id].closeAfterFlush,
                                                registered := flows[id].registered)
                && connections[id].input == old(connections[id].input)
                && connections[id].output == old(connections[id].output)[if writable then sent else 0..]
                && !ShouldClose(connections[id], flows[id])
    {
      hide Coherent, CoherentBut, OthersKept, Remove, UpdatedInterest;
      ConcludeCoheres(View(), id, status, writable, sent, wrote);
      ghost var start := View();
      var shouldRemove := false;
      if status.ReadProtocolError? {
        shouldRemove := true;
      } else if status.ReadPeerClosed? {
        flows := flows[id := flows[id].(closeAfterFlush := true)];
      }
      if !shouldRemove && writable {
        connections := connections[id := connections[id].(output := connections[id].output[sent..])];
        shouldRemove := wrote.WritePeerClosed?;
      }
      assert View() == Put(start, id, connections[id], flows[id]);
      if shouldRemove {
        RemoveConnection(id);
        return;
      }
      if ShouldClose(connections[id], flows[id]) {
        RemoveConnection(id);
        return;
      }
      UpdateInterest(id);
    }

    /** Removes everything, in an order that the hash map chooses. It ends because every flow
        has a connection (see ClosingEndsIff). */
    method CloseAllConnections() returns (ghost order: seq<nat>)
      requires Valid()
      modifies this
      ensures Valid() && View() == RemoveAll(old(View()), order)
      ensures View() == EMPTY_TABLE.(nextId := old(nextId))
    {
      hide Remove, OthersKept, InterestOk;
      order := [];
      while flows != map[]
        invariant Valid() && View() == RemoveAll(old(View()), order)
        decreases |flows|
      {
        var id :| id in flows;
        CoherentIsEnough(View(), id);
        RemoveShrinks(View(), id);
        RemoveConnection(id);
        assert (order + [id])[..|order|] == order;
        order := order + [id];
      }
      ClosingEmpties(old(View()), order);
    }

    /** Registers one accepted socket, or turns it away. */
    method AcceptOne(maxConnections: nat, registers: bool) returns (r: AcceptResult)
      modifies this
      ensures (View(), r) == Accept(maxConnections, old(View()), registers)
      ensures old(Valid()) ==> Valid() && Accepted(maxConnections, old(View()), registers, View(), r)
    {
      hide Coherent, Accepted;
      AcceptWhenValid(maxConnections, View(), registers);
      if |connections| >= maxConnections {
        return TurnedAway;
      }
      if nextId == LAST_ID {
        return OutOfIds;
      }
      var id := nextId;
      nextId := nextId + 1;
      connections := connections[id := NEW_CONNECTION];
      flows := flows[id := NEW_FLOW];
      if !registers {
        Overwritten(old(flows), id, NEW_FLOW, NEW_FLOW);
        Overwritten(old(connections), id, NEW_CONNECTION, NEW_CONNECTION);
        flows := flows - {id};
        connections := connections - {id};
        return Refused;
      }
      epoll := epoll[id := Interest(true, false)];
      Overwritten(old(flows), id, NEW_FLOW, NEW_FLOW.(registered := true));
      flows := flows[id := flows[id].(registered := true)];
      return Joined;
    }

    /** Accepts what is waiting, at most 64 sockets; `registers[i]` says whether epoll takes
        the i-th one. An exception leaves the loop after the socket that raised it. */
    method HandleListenerEvent(maxConnections: nat, registers: seq<bool>) returns (taken: nat, thrown: bool)
      modifies this
      ensures taken <= |registers| && taken <= 64
      ensures View() == AcceptMany(maxConnections, old(View()), registers[..taken])
      ensures KeepsAccepting(maxConnections, old(View()), View())
      ensures !thrown ==> taken == |registers| || taken == 64
      ensures thrown ==> taken > 0 && Throws(maxConnections, old(View()), registers, taken - 1)
      ensures forall i :: 0 <= i < (if thrown then taken - 1 else taken) ==>
                !Throws(maxConnections, old(View()), registers, i)
    {
      hide Accept, Coherent, AllKept, Accepted, KeepsAccepting, AcceptMany;
      ghost var start := View();
      taken := 0;
      NoneAccepted(maxConnections, start);
      while taken < MAX_ACCEPTS_PER_EVENT && taken < |registers|
        invariant taken <= |registers| && taken <= MAX_ACCEPTS_PER_EVENT
        invariant View() == AcceptMany(maxConnections, start, registers[..taken])
        invariant forall i :: 0 <= i < taken ==> !Throws(maxConnections, start, registers, i)
        decreases |registers| - taken
      {
        OneMoreAccept(maxConnections, start, registers, taken);
        var r := AcceptOne(maxConnections, registers[taken]);
        taken := taken + 1;
        if r in {Refused, OutOfIds} {
          AcceptsKeep(maxConnections, start, registers[..taken]);
          return taken, true;
        }
      }
      AcceptsKeep(maxConnections, start, registers[..taken]);
      return taken, false;
    }
  }
}
