/** The identity of connections: their keys are apart from the reserved ones, except for the
    last id, and a connection that gets that one is never served. */
module Identity {
  import opened Codec
  import opened Streams
  import opened Connections
  import opened Reactors
  import opened Servers
  import opened Invariants
  import opened Reachability
  import opened Progress

  /** In every run the key of a live connection is one of the keys reserved for the listener,
      the wake-up and the shutdown signal exactly if it is the shutdown key, the last id. */
  lemma {:induction false} LiveKeys(cfg: Config, labels: seq<Label>, id: nat)
    requires cfg.Valid() && id in Execute(cfg, labels).table.connections
    ensures id in {0, 0xFFFF_FFFF_FFFF_FFFF, 0xFFFF_FFFF_FFFF_FFFE} <==> id == 0xFFFF_FFFF_FFFF_FFFE
    ensures id < Execute(cfg, labels).table.nextId
  {
    hide Execute, ConservedOk, WakeupOk, SleepOk, QueueOk, DeliveryOk, LiveOk, LogsOk, EndedOk, Parse;
    Reachable(cfg, labels);
  }

  /** One client comes and fails. */
  lemma ComesAndGoes(cfg: Config, s: State)
    requires cfg.Valid() && s.pc.Polling? && s.table == EMPTY_TABLE.(nextId := s.table.nextId)
    requires s.table.nextId < SHUTDOWN_SIGNAL_KEY
    ensures var id := s.table.nextId;
            var a := Step(cfg, s, Arrive(true));
            var b := Step(cfg, a, Event(id, true, false, false, [], ReadResult(ReadOk, [], None)));
            && id in a.table.connections
            && b.pc.Polling? && b.table == EMPTY_TABLE.(nextId := id + 1)
  {}

  lemma {:induction false} IdsRunOut(cfg: Config, n: nat) returns (labels: seq<Label>)
    requires cfg.Valid() && n < SHUTDOWN_SIGNAL_KEY
    ensures var s := Execute(cfg, labels);
            s.pc.Polling? && s.table == EMPTY_TABLE.(nextId := n + 1)
  {
    hide Step;
    if n == 0 {
      labels := [];
    } else {
      labels := IdsRunOut(cfg, n - 1);
      ComesAndGoes(cfg, Execute(cfg, labels));
      Then(cfg, labels, Arrive(true));
      labels := labels + [Arrive(true)];
      var fails := Event(n, true, false, false, [], ReadResult(ReadOk, [], None));
      Then(cfg, labels, fails);
      labels := labels + [fails];
    }
  }

  /** The collision is within reach: under every configuration some run gives a live
      connection the shutdown key. */
  lemma {:induction false} ShutdownKeyIsGivenOut(cfg: Config) returns (labels: seq<Label>)
    requires cfg.Valid()
    ensures 0xFFFF_FFFF_FFFF_FFFE in Execute(cfg, labels).table.connections
  {
    hide Step;
    labels := IdsRunOut(cfg, SHUTDOWN_SIGNAL_KEY - 1);
    Comes(cfg, Execute(cfg, labels));
    Then(cfg, labels, Arrive(true));
    labels := labels + [Arrive(true)];
  }

  lemma Comes(cfg: Config, s: State)
    requires cfg.Valid() && s.pc.Polling? && s.table == EMPTY_TABLE.(nextId := s.table.nextId)
    requires s.table.nextId < LAST_ID
    ensures s.table.nextId in Step(cfg, s, Arrive(true)).table.connections
  {}

  // -------------------------------------------------- what becomes of the last id

  /** The connection with the shutdown key, while it lives, is as it was when it came. */
  ghost predicate Unserved(s: State) {
    SHUTDOWN_SIGNAL_KEY in s.table.flows ==>
      && SHUTDOWN_SIGNAL_KEY in s.table.connections && SHUTDOWN_SIGNAL_KEY in s.logs
      && s.table.flows[SHUTDOWN_SIGNAL_KEY] == NEW_FLOW.(registered := true)
      && s.table.connections[SHUTDOWN_SIGNAL_KEY] == NEW_CONNECTION
      && s.logs[SHUTDOWN_SIGNAL_KEY] == NEW_LOG
      && !(s.pc.Submitting? && s.pc.id == SHUTDOWN_SIGNAL_KEY)
  }

  /** Only an event leads into `SubmitWork`. */
  lemma SubmittingSince(cfg: Config, s: State, l: Label)
    ensures var pc := Step(cfg, s, l).pc;
            pc.Submitting? ==>
              || (s.pc.Submitting? && s.pc.id == pc.id)
              || (s.pc.Polling? && l.Event? && l.id == pc.id && l.id != SHUTDOWN_SIGNAL_KEY)
  {
    hide ArriveStep, EventStep, SubmitStep, CountStep, FinishStep, ProcessStep, ShutdownStep, WorkerStep;
    StepPcs(cfg, s, l);
  }

  /** Where the steps of the reactor lead. */
  lemma StepPcs(cfg: Config, s: State, l: Label)
    ensures s.pc.Processing? && s.pc.batch != [] ==> ProcessStep(cfg, s).pc.Processing?
    ensures s.pc.Polling? && l.Arrive? ==> !ArriveStep(cfg, s, l.registers).pc.Submitting?
    ensures s.pc.Polling? && l.Shutdown? ==> !ShutdownStep(s, l.order).pc.Submitting?
    ensures l.Work? && l.worker < |s.workers| ==> WorkerStep(cfg, s, l.worker).pc == s.pc
    ensures s.pc.Polling? && l.Event? ==>
              var pc := EventStep(cfg, s, l).pc;
              pc.Submitting? ==> pc.id == l.id != SHUTDOWN_SIGNAL_KEY
    ensures s.pc.Submitting? && s.pc.id in s.table.connections && s.pc.id in s.table.flows && s.pc.id in s.logs ==>
              && (s.pc.todo != [] ==> var pc := SubmitStep(cfg, s).pc; pc.Polling? || pc == s.pc.(phase := Pushed))
              && (s.pc.todo != [] ==> CountStep(s).pc == s.pc.(phase := Testing, todo := s.pc.todo[1..]))
              && (l.Finish? ==> var pc := FinishStep(cfg, s, l.sent, l.wrote).pc; pc.Polling? || pc == s.pc)
  {
    hide Settle, Conclude, Parse, ReadOutcome, WriteOutcome, Complete, RemoveAll, Accept;
  }

  /** An event with the shutdown key does nothing. */
  lemma DeafEvent(cfg: Config, s: State, l: Label)
    requires s.pc.Polling? && l.Event? && l.id == SHUTDOWN_SIGNAL_KEY
    ensures Step(cfg, s, l) == s
  {}

  /** Nothing is under way for a connection that was never heard. */
  lemma NoResults(cfg: Config, s: State)
    requires Inv(cfg, s) && Unserved(s) && SHUTDOWN_SIGNAL_KEY in s.table.flows && s.pc.Processing? && s.pc.batch != []
    ensures s.pc.batch[0].id != SHUTDOWN_SIGNAL_KEY
  {
    hide ConnectionsOk, WakeupOk, SleepOk, QueueOk, DeliveryOk, AccountedOk, Hands, Results;
    assert s.pc.batch[0] in Outstanding(cfg, s);
  }

  lemma UnservedStays(cfg: Config, s: State, l: Label)
    requires Inv(cfg, s) && Unserved(s) && SHUTDOWN_SIGNAL_KEY in s.table.flows
    ensures Unserved(Step(cfg, s, l))
  {
    hide Inv, Step;
    var id := SHUTDOWN_SIGNAL_KEY;
    KnownId(cfg, s, id);
    SubmittingSince(cfg, s, l);
    if s.pc.Polling? && l.Shutdown? {
      ShutdownEmpties(cfg, s, l);
    } else if s.pc.Polling? && l.Event? && l.id == id {
      DeafEvent(cfg, s, l);
    } else {
      if s.pc.Processing? && s.pc.batch != [] {
        NoResults(cfg, s);
      }
      Isolation(cfg, s, l, id);
    }
  }

  /** A connection that is new after a step is a fresh one. */
  lemma NewcomersAreFresh(cfg: Config, s: State, l: Label, id: nat)
    requires Inv(cfg, s) && Inv(cfg, Step(cfg, s, l)) && id !in s.table.flows && id in Step(cfg, s, l).table.flows
    ensures var t := Step(cfg, s, l);
            && t.pc.Polling? && id in t.table.connections && id in t.logs
            && t.table.flows[id] == NEW_FLOW.(registered := true) && t.table.connections[id] == NEW_CONNECTION
            && t.logs[id] == NEW_LOG
  {
    hide Inv, Step;
    if s.pc.Polling? && l.Arrive? {
      KeysOf(cfg, s);
      Arrives(cfg, s, l, id);
    } else {
      NothingNew(cfg, s, l, id);
    }
  }

  lemma KeysOf(cfg: Config, s: State)
    requires Inv(cfg, s)
    ensures s.table.connections.Keys == s.table.flows.Keys
    ensures forall id :: id in s.table.flows ==> id < s.table.nextId
    ensures forall id :: id in s.logs <==> 1 <= id < s.table.nextId
  {
    hide ConservedOk, Outstanding, WakeupOk, SleepOk, QueueOk, DeliveryOk, LiveOk, EndedOk, Parse;
  }

  lemma Arrives(cfg: Config, s: State, l: Label, id: nat)
    requires s.pc.Polling? && l.Arrive? && id !in s.table.flows && id in Step(cfg, s, l).table.flows
    ensures var t := Step(cfg, s, l);
            && t.pc.Polling? && id in t.table.connections && id in t.logs
            && t.table.flows[id] == NEW_FLOW.(registered := true) && t.table.connections[id] == NEW_CONNECTION
            && t.logs[id] == NEW_LOG
  {}

  lemma NothingNew(cfg: Config, s: State, l: Label, id: nat)
    requires Inv(cfg, s) && Inv(cfg, Step(cfg, s, l)) && !(s.pc.Polling? && l.Arrive?) && id !in s.table.flows
    ensures id !in Step(cfg, s, l).table.flows
  {
    hide Inv, Step;
    KeysOf(cfg, s);
    KeysOf(cfg, Step(cfg, s, l));
    if id < s.table.nextId {
      if s.pc.Polling? && l.Shutdown? {
        ShutdownEmpties(cfg, s, l);
      } else if Subject(s, l) == Some(id) {
        AwaySubject(cfg, s, l, id);
      } else {
        Isolation(cfg, s, l, id);
      }
    } else {
      SameNextId(cfg, s, l);
    }
  }

  lemma AwaySubject(cfg: Config, s: State, l: Label, id: nat)
    requires Inv(cfg, s) && Subject(s, l) == Some(id) && id !in s.table.flows
    ensures Step(cfg, s, l).table == s.table
  {
    hide ConservedOk, Outstanding, WakeupOk, SleepOk, QueueOk, DeliveryOk, LiveOk, EndedOk, Parse, Step, TableOk;
    KeysAgree(cfg, s);
    GoneSubject(cfg, s, l, id);
  }

  lemma SameNextId(cfg: Config, s: State, l: Label)
    requires !(s.pc.Polling? && l.Arrive?)
    ensures Step(cfg, s, l).table.nextId == s.table.nextId
  {
    hide ArriveStep, EventStep, SubmitStep, CountStep, FinishStep, ProcessStep, ShutdownStep;
  }

  lemma {:induction false} UnservedRun(cfg: Config, labels: seq<Label>)
    requires cfg.Valid()
    ensures Unserved(Execute(cfg, labels))
  {
    hide Inv, Step, Unserved;
    if labels == [] {
      assert Unserved(Initial(cfg)) by { InitiallyUnserved(cfg); }
    } else {
      var s, l := Execute(cfg, labels[..|labels| - 1]), labels[|labels| - 1];
      UnservedRun(cfg, labels[..|labels| - 1]);
      Reachable(cfg, labels[..|labels| - 1]);
      Reachable(cfg, labels);
      if SHUTDOWN_SIGNAL_KEY in s.table.flows {
        UnservedStays(cfg, s, l);
      } else {
        NewIsUnserved(cfg, s, l);
      }
    }
  }

  lemma InitiallyUnserved(cfg: Config)
    ensures Unserved(Initial(cfg))
  {}

  lemma NewIsUnserved(cfg: Config, s: State, l: Label)
    requires Inv(cfg, s) && Inv(cfg, Step(cfg, s, l)) && SHUTDOWN_SIGNAL_KEY !in s.table.flows
    ensures Unserved(Step(cfg, s, l))
  {
    hide Inv, Step;
    if SHUTDOWN_SIGNAL_KEY in Step(cfg, s, l).table.flows {
      NewcomersAreFresh(cfg, s, l, SHUTDOWN_SIGNAL_KEY);
    }
  }

  /** What the collision costs: in every run the connection with the last id, while it lives,
      has been read nothing from and sent nothing, and never leaves that state but by the end
      of the server. So every connection that is half-closed has another key. */
  lemma {:induction false} LastIdIsNeverServed(cfg: Config, labels: seq<Label>, id: nat)
    requires cfg.Valid() && id in Execute(cfg, labels).table.flows
    ensures var s := Execute(cfg, labels);
            && (id == 0xFFFF_FFFF_FFFF_FFFE ==> id in s.logs && s.logs[id].received == [] && s.logs[id].sent == [])
            && (s.table.flows[id].closeAfterFlush ==> id != 0xFFFF_FFFF_FFFF_FFFE)
  {
    hide Execute;
    UnservedRun(cfg, labels);
  }
}
