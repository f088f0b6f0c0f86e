/** The input limit is exact, in every run: a request is decoded only if its frame fits in the
    input buffer, and a read is rejected without an error in the stream only if the frame at
    the head does not. */
module InputLimits {
  import opened Codec
  import opened Streams
  import opened Connections
  import opened Reactors
  import opened Servers
  import opened Invariants
  import opened Reachability
  import opened Theorems

  /** All that was ever decoded from a connection fits in its buffer, and so does the rest. */
  predicate Fits(cfg: Config, log: Log) {
    AllFit(Requests(log), cfg.maxInput) && |log.parsed.rest| <= cfg.maxInput
  }

  ghost predicate FittingOk(cfg: Config, logs: map<nat, Log>) {
    forall id :: id in logs ==> Fits(cfg, logs[id])
  }

  lemma FitsTogether(a: seq<Message>, b: seq<Message>, limit: nat)
    requires AllFit(a, limit) && AllFit(b, limit)
    ensures AllFit(a + b, limit)
  {}

  lemma EventFits(cfg: Config, s: State, e: Label)
    requires FittingOk(cfg, s.logs) && e.Event?
    ensures FittingOk(cfg, EventStep(cfg, s, e).logs)
  {
    hide Parse, Settle, AllFit;
    if e.id in s.table.connections && e.id in s.logs {
      var p := Parse(s.table.connections[e.id].input + e.received);
      if AllFit(p.messages, cfg.maxInput) {
        FitsTogether(s.logs[e.id].parsed.messages, p.messages, cfg.maxInput);
      }
    }
  }

  /** Only a read adds to what was decoded. */
  lemma ReactorFits(cfg: Config, s: State, l: Label)
    requires FittingOk(cfg, s.logs)
    ensures FittingOk(cfg, ReactorStep(cfg, s, l).logs)
  {
    hide EventStep, Settle, Conclude, Complete, Accept, Fits, WriteOutcome, RemoveAll;
    if l.Event? {
      EventFits(cfg, s, l);
    }
    NewFits(cfg);
    forall log: Log, sent, ending ensures Fits(cfg, log.(sent := sent, ending := ending)) == Fits(cfg, log) {
      OutputIsFree(cfg, log, sent, ending);
    }
  }

  lemma NewFits(cfg: Config)
    ensures Fits(cfg, NEW_LOG)
  {}

  lemma OutputIsFree(cfg: Config, log: Log, sent: seq<Byte>, ending: Ending)
    ensures Fits(cfg, log.(sent := sent, ending := ending)) == Fits(cfg, log)
  {}

  lemma {:induction false} RunFits(cfg: Config, labels: seq<Label>)
    ensures FittingOk(cfg, Execute(cfg, labels).logs)
  {
    hide ReactorStep, FittingOk, WorkerStep;
    if labels == [] {
      assert FittingOk(cfg, Execute(cfg, labels).logs) by { NoLogs(cfg); }
    } else {
      var s, l := Execute(cfg, labels[..|labels| - 1]), labels[|labels| - 1];
      RunFits(cfg, labels[..|labels| - 1]);
      ReactorFits(cfg, s, l);
      WorkerLogs(cfg, s, l);
    }
  }

  lemma NoLogs(cfg: Config)
    ensures FittingOk(cfg, map[])
  {}

  lemma WorkerLogs(cfg: Config, s: State, l: Label)
    ensures l.Work? && l.worker < |s.workers| ==> WorkerStep(cfg, s, l.worker).logs == s.logs
  {}

  /** The read of the event being handled was rejected, though the stream holds no error. */
  ghost predicate LimitRejected(s: State, id: nat) {
    && s.pc.Submitting? && s.pc.id == id && s.pc.status.ReadProtocolError?
    && id in s.logs && s.logs[id].parsed.error.None?
  }

  /** Both directions of the limit, for every client and every run. What does not fit is never
      decoded, and no more than a buffer of it is ever held; and the limit rejects a read only
      when the frame at the head cannot fit. */
  lemma {:induction false} InputLimitIsExact(cfg: Config, labels: seq<Label>, id: nat)
    requires cfg.Valid()
    ensures var s := Execute(cfg, labels);
            id in s.logs ==>
              && AllFit(Parse(s.logs[id].received).messages, cfg.maxInput)
              && |Parse(s.logs[id].received).rest| <= cfg.maxInput
              && (LimitRejected(s, id) ==> HeadCannotFit(Parse(s.logs[id].received).rest, cfg.maxInput))
  {
    hide Execute, Parse, ConnectionsOk, ConservedOk, WakeupOk, SleepOk, QueueOk, DeliveryOk, FromBigEndian;
    Reachable(cfg, labels);
    RunFits(cfg, labels);
    var s := Execute(cfg, labels);
    if id in s.logs {
      LogFacts(cfg, s.table, s.logs, s.pc, id);
      ParseStops(s.logs[id].received);
    }
  }

  /** A client that sends well-formed frames. All requests decoded from it come before its
      first frame that does not fit, of which at most a buffer is taken; and if its read is
      rejected, that frame is the one at the head. */
  lemma {:induction false} OversizedIsNeverServed(cfg: Config, labels: seq<Label>, id: nat, ms: seq<Message>, k: nat)
    requires cfg.Valid() && id in Execute(cfg, labels).logs
    requires AllEncodable(ms) && Execute(cfg, labels).logs[id].received <= EncodeAll(ms)
    requires k < |ms| && AllFit(ms[..k], cfg.maxInput) && HEADER_SIZE + |ms[k].payload| > cfg.maxInput
    ensures var s := Execute(cfg, labels);
            && Requests(s.logs[id]) <= ms[..k]
            && |s.logs[id].received| <= |EncodeAll(ms[..k])| + cfg.maxInput
            && (s.pc.Submitting? && s.pc.id == id && s.pc.status.ReadProtocolError? ==> Requests(s.logs[id]) == ms[..k])
  {
    hide Execute, Parse, EncodeAll, ConnectionsOk, ConservedOk, WakeupOk, SleepOk, QueueOk, DeliveryOk,
         FromBigEndian, AllEncodable;
    Reachable(cfg, labels);
    InputLimitIsExact(cfg, labels, id);
    var s := Execute(cfg, labels);
    var received := s.logs[id].received;
    LogFacts(cfg, s.table, s.logs, s.pc, id);
    WellFormedPrefix(ms, received);
    var n := |Parse(received).messages|;
    if n > k {
      FitsAt(Parse(received).messages, ms, k, cfg.maxInput);
    }
    assert n < k ==> ms[..k][n] == ms[n];
    EncodeAllParse(received);
    assert Parse(received).messages == ms[..n];
    LongerStream(ms, n, k);
  }

  lemma FitsAt(decoded: seq<Message>, ms: seq<Message>, k: nat, limit: nat)
    requires decoded <= ms && AllFit(decoded, limit) && k < |decoded|
    ensures HEADER_SIZE + |ms[k].payload| <= limit
  {
    assert ms[k] == decoded[k];
  }

  lemma LongerStream(ms: seq<Message>, n: nat, k: nat)
    requires n <= k <= |ms|
    ensures |EncodeAll(ms[..n])| <= |EncodeAll(ms[..k])|
  {
    ConcatAppend(Frame, ms[..n], ms[n..k]);
    assert ms[..n] + ms[n..k] == ms[..k];
  }
}
