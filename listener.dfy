/**
 * The UDP listener (`upd_listener`) and the websocket registry it sends to,
 * as one object: the remembered best lap, the lap-record table, the client
 * list and whether the listening task is still alive. `Process` is what one
 * iteration of its `while True` loop does to that state; the class's
 * methods are proved to do exactly that.
 */
module Listener {
  import opened Wrappers
  import opened Wire
  import opened Floats
  import opened Telemetry
  import opened Cars
  import opened Message
  import opened BestLap
  import opened LapStore
  import opened Registry

  /** Everything one loop iteration reads or changes. */
  datatype State = State(
    bestlapOld: Option<Float32>,
    store: seq<LapRecord>,
    clients: seq<ClientId>,
    running: bool)

  /** What one received datagram led to. */
  datatype StepOutcome =
    | Stopped       // the listening task has ended; nothing is read any more
    | Runt          // shorter than MinDatagram: skipped before any field is read
    | Undecodable   // a read ran past the end: struct.error, logged and skipped
    | Processed(saved: Option<InsertOutcome>, msg: Snapshot, sent: seq<Delivery>, failed: Option<ClientId>)

      // the fuel word is NaN or infinite: `round` raised while the message was
      // built, after the save and before any send, and the task has ended
    | MessageFailed(saved: Option<InsertOutcome>)

  /** The state invariant: table keys unique, and only nonzero best laps remembered. */
  predicate Inv(s: State) {
    KeysUnique(s.store) && (s.bestlapOld.Some? ==> !IsZero(s.bestlapOld.value))
  }

  /**
   * One iteration of the loop on a received datagram. failing is the set of
   * clients whose `send_text` raises; that exception is not struct.error, so
   * it leaves the loop and ends the task. So does the ValueError or
   * OverflowError that `round` raises on a NaN or infinite fuel word.
   */
  function Process(s: State, data: seq<Byte>, failing: set<ClientId>): (r: (State, StepOutcome))
    ensures r.0.clients == s.clients
    ensures r.1.Processed? || r.1.MessageFailed? <==> s.running && |data| >= FrameEnd
  {
    if !s.running then (s, Stopped)
    else if |data| < MinDatagram then (s, Runt)
    else match Decode(data)
      case StructError => (s, Undecodable)
      case Ok(reading) =>
        var carro := CarName(reading.carId);
        var corridastatus := RaceStatus(reading.isRaceOn);
        var save := ShouldSave(s.bestlapOld, carro, reading.bestLap, reading.lapNumber);
        var inserted := Insert(s.store, LapRecord(carro, reading.bestLap, reading.lapNumber));
        var store := if save then inserted.0 else s.store;
        var saved := if save then Some(inserted.1) else None;
        var remembered := Remember(s.bestlapOld, carro, reading.bestLap, reading.lapNumber);
        match MakeSnapshot(reading, carro, corridastatus)
          case None => (State(remembered, store, s.clients, false), MessageFailed(saved))
          case Some(msg) =>
            var failed := FirstFailure(s.clients, failing);
            (State(remembered, store, s.clients, failed.None?),
             Processed(saved, msg, Deliveries(Reached(s.clients, failing), msg), failed))
  }

  /**
   * Once the task has ended, a datagram is not read: the state stays as it
   * is and the outcome is Stopped.
   */
  lemma StoppedInert(s: State, data: seq<Byte>, failing: set<ClientId>)
    requires !s.running
    ensures Process(s, data, failing) == (s, Stopped)
  {
  }

  /** A runt changes nothing: no field is read, nothing is saved or sent. */
  lemma RuntIgnored(s: State, data: seq<Byte>, failing: set<ClientId>)
    requires s.running && |data| < MinDatagram
    ensures Process(s, data, failing) == (s, Runt)
  {
  }

  /**
   * A datagram of 228 to 308 bytes passes the size check but fails to
   * decode, and changes nothing either.
   */
  lemma ShortFrameDropped(s: State, data: seq<Byte>, failing: set<ClientId>)
    requires s.running && MinDatagram <= |data| < FrameEnd
    ensures Process(s, data, failing) == (s, Undecodable)
  {
  }

  /**
   * A decoded datagram is saved exactly when its best lap is nonzero, its
   * lap number is nonzero and its best lap is not `==` to the remembered
   * one (always, while nothing is remembered). The car-name test never
   * fails. Saved or not, the remembered value afterwards is the datagram's
   * best lap if it was eligible, and unchanged otherwise. A save is the
   * insert of (car name, best lap, lap number); without one the table is
   * left as it was. All of this holds whether or not the message that
   * follows can be built.
   */
  lemma SaveDecision(s: State, data: seq<Byte>, failing: set<ClientId>)
    requires s.running && |data| >= FrameEnd
    ensures var reading := Decode(data).value;
            var (s', o) := Process(s, data, failing);
            && (o.Processed? || o.MessageFailed?)
            && (o.saved.Some? <==>
                  !IsZero(reading.bestLap) && reading.lapNumber != 0
                  && (s.bestlapOld.None? || !Equal(s.bestlapOld.value, reading.bestLap)))
            && (!IsZero(reading.bestLap) && reading.lapNumber != 0 ==> s'.bestlapOld == Some(reading.bestLap))
            && (IsZero(reading.bestLap) || reading.lapNumber == 0 ==> s'.bestlapOld == s.bestlapOld)
            && (o.saved.None? ==> s'.store == s.store)
            && (o.saved.Some? ==>
                  (s'.store, o.saved.value)
                    == Insert(s.store, LapRecord(CarName(reading.carId), reading.bestLap, reading.lapNumber)))
  {
    var reading := Decode(data).value;
    var carro := CarName(reading.carId);
    if Eligible(carro, reading.bestLap, reading.lapNumber) {
      RememberEligible(s.bestlapOld, carro, reading.bestLap, reading.lapNumber);
    }
  }

  /**
   * Every iteration keeps the state invariant, and rows already in the
   * table are never changed.
   */
  lemma ProcessKeepsInv(s: State, data: seq<Byte>, failing: set<ClientId>)
    requires Inv(s)
    ensures Inv(Process(s, data, failing).0)
    ensures s.store <= Process(s, data, failing).0.store
  {
  }

  /**
   * A message is built exactly when the fuel word is finite; it is the
   * snapshot of the reading, and it goes, unchanged, to the clients in list
   * order up to the first whose send raises. The task survives exactly when
   * the fuel word is finite and no send raised.
   */
  lemma BroadcastOrder(s: State, data: seq<Byte>, failing: set<ClientId>)
    requires s.running && |data| >= FrameEnd
    ensures var reading := Decode(data).value;
            var (s', o) := Process(s, data, failing);
            && (o.Processed? <==> IsFinite(reading.fuel))
            && (o.MessageFailed? <==> !IsFinite(reading.fuel))
            && (o.Processed? ==>
                  && Some(o.msg) == MakeSnapshot(reading, CarName(reading.carId), RaceStatus(reading.isRaceOn))
                  && |o.sent| <= |s.clients|
                  && (forall k :: 0 <= k < |o.sent| ==> o.sent[k] == Delivery(s.clients[k], o.msg))
                  && (o.failed.Some? ==> o.failed.value in failing && o.failed.value == s.clients[|o.sent|])
                  && (o.failed.None? ==> |o.sent| == |s.clients|)
                  && o.sent == Deliveries(Reached(s.clients, failing), o.msg)
                  && o.failed == FirstFailure(s.clients, failing))
            && (s'.running <==> IsFinite(reading.fuel) && FirstFailure(s.clients, failing).None?)
  {
  }

  /**
   * The loop over a finite run of datagrams, one Process per datagram;
   * failing[i] is the set of clients whose send raises on datagram i.
   */
  function RunAll(s: State, datagrams: seq<seq<Byte>>, failing: seq<set<ClientId>>): (r: (State, seq<StepOutcome>))
    requires |failing| == |datagrams|
    ensures |r.1| == |datagrams|
    ensures r.0.clients == s.clients
  {
    if datagrams == [] then (s, [])
    else
      var n := |datagrams|;
      var (s', outcomes) := RunAll(s, datagrams[..n - 1], failing[..n - 1]);
      var (s'', o) := Process(s', datagrams[n - 1], failing[n - 1]);
      (s'', outcomes + [o])
  }

  /**
   * A datagram that cannot be used does not disturb the loop: the valid
   * datagram after it is processed exactly as if it had come first.
   */
  lemma GarbageThenValid(s: State, garbage: seq<Byte>, valid: seq<Byte>, f1: set<ClientId>, f2: set<ClientId>)
    requires s.running && |garbage| < FrameEnd && |valid| >= FrameEnd
    ensures var skipped := if |garbage| < MinDatagram then Runt else Undecodable;
            RunAll(s, [garbage, valid], [f1, f2])
              == (Process(s, valid, f2).0, [skipped, Process(s, valid, f2).1])
  {
    var skipped := if |garbage| < MinDatagram then Runt else Undecodable;
    assert [garbage, valid][..1] == [garbage];
    assert [f1, f2][..1] == [f1];
    assert [garbage][..0] == [];
    assert [f1][..0] == [];
    if |garbage| < MinDatagram {
      RuntIgnored(s, garbage, f1);
    } else {
      ShortFrameDropped(s, garbage, f1);
    }
    var none: seq<StepOutcome> := [];
    assert none + [skipped] == [skipped];
    assert RunAll(s, [garbage], [f1]) == (s, [skipped]);
    assert [skipped] + [Process(s, valid, f2).1] == [skipped, Process(s, valid, f2).1];
  }

  /** Number of save attempts among the outcomes. */
  function SaveAttempts(outcomes: seq<StepOutcome>): (n: nat)
    ensures n <= |outcomes|
  {
    if outcomes == [] then 0
    else
      var o := outcomes[|outcomes| - 1];
      SaveAttempts(outcomes[..|outcomes| - 1]) + (if (o.Processed? || o.MessageFailed?) && o.saved.Some? then 1 else 0)
  }

  /** A datagram that decodes and whose reading is eligible to be saved. */
  predicate EligibleDatagram(data: seq<Byte>) {
    |data| >= FrameEnd
    && var reading := Decode(data).value;
       Eligible(CarName(reading.carId), reading.bestLap, reading.lapNumber)
  }

  /** The best laps of a run of decodable datagrams. */
  function BestLaps(datagrams: seq<seq<Byte>>): (laps: seq<Float32>)
    requires forall i :: 0 <= i < |datagrams| ==> |datagrams[i]| >= FrameEnd
    ensures |laps| == |datagrams|
    ensures forall i :: 0 <= i < |datagrams| ==> laps[i] == Decode(datagrams[i]).value.bestLap
  {
    seq(|datagrams|, i requires 0 <= i < |datagrams| => Decode(datagrams[i]).value.bestLap)
  }

  /**
   * A datagram that is processed in full without ending the task: it is
   * eligible to be saved, its fuel word is finite, and none of the clients
   * fails to receive it.
   */
  predicate CleanDatagram(clients: seq<ClientId>, data: seq<Byte>, failing: set<ClientId>) {
    EligibleDatagram(data) && IsFinite(Decode(data).value.fuel)
    && forall c :: c in clients ==> c !in failing
  }

  /** A run of clean datagrams, each with its own set of failing clients. */
  predicate CleanRun(clients: seq<ClientId>, datagrams: seq<seq<Byte>>, failing: seq<set<ClientId>>) {
    |failing| == |datagrams|
    && forall i :: 0 <= i < |datagrams| ==> CleanDatagram(clients, datagrams[i], failing[i])
  }

  /**
   * A clean datagram is processed in full and keeps the task running; its
   * best lap is remembered afterwards, and it is saved exactly when nothing
   * was remembered or the remembered lap is not `==` to it.
   */
  lemma CleanStep(s: State, data: seq<Byte>, failing: set<ClientId>)
    requires s.running && CleanDatagram(s.clients, data, failing)
    ensures var lap := Decode(data).value.bestLap;
            var (s', o) := Process(s, data, failing);
            && o.Processed? && s'.running && s'.bestlapOld == Some(lap)
            && (o.saved.Some? <==> s.bestlapOld.None? || !Equal(s.bestlapOld.value, lap))
  {
    SaveDecision(s, data, failing);
    BroadcastOrder(s, data, failing);
  }

  lemma CleanRunPrefix(clients: seq<ClientId>, datagrams: seq<seq<Byte>>, failing: seq<set<ClientId>>)
    requires CleanRun(clients, datagrams, failing) && datagrams != []
    ensures CleanRun(clients, datagrams[..|datagrams| - 1], failing[..|datagrams| - 1])
    ensures CleanDatagram(clients, datagrams[|datagrams| - 1], failing[|datagrams| - 1])
  {
  }

  lemma BestLapsPrefix(datagrams: seq<seq<Byte>>)
    requires forall i :: 0 <= i < |datagrams| ==> |datagrams[i]| >= FrameEnd
    requires datagrams != []
    ensures BestLaps(datagrams[..|datagrams| - 1]) == BestLaps(datagrams)[..|datagrams| - 1]
  {
  }

  lemma SaveAttemptsSnoc(outcomes: seq<StepOutcome>, o: StepOutcome)
    ensures SaveAttempts(outcomes + [o])
              == SaveAttempts(outcomes) + (if (o.Processed? || o.MessageFailed?) && o.saved.Some? then 1 else 0)
  {
    assert (outcomes + [o])[..|outcomes|] == outcomes;
  }

  /**
   * From a fresh start, over a clean run, the number of save attempts is
   * the number of maximal blocks of consecutive `==`-equal best laps.
   */
  lemma {:induction false} SaveAttemptsCountBlocks(s: State, datagrams: seq<seq<Byte>>, failing: seq<set<ClientId>>)
    requires s.running && s.bestlapOld.None?
    requires CleanRun(s.clients, datagrams, failing)
    ensures forall i :: 0 <= i < |datagrams| ==> |datagrams[i]| >= FrameEnd
    ensures SaveAttempts(RunAll(s, datagrams, failing).1) == Blocks(BestLaps(datagrams))
    ensures RunAll(s, datagrams, failing).0.running
    ensures datagrams != [] ==>
              RunAll(s, datagrams, failing).0.bestlapOld == Some(BestLaps(datagrams)[|datagrams| - 1])
  {
    if datagrams != [] {
      var n := |datagrams|;
      CleanRunPrefix(s.clients, datagrams, failing);
      var prefix := datagrams[..n - 1];
      SaveAttemptsCountBlocks(s, prefix, failing[..n - 1]);
      var (s', outcomes) := RunAll(s, prefix, failing[..n - 1]);
      var last := datagrams[n - 1];
      CleanStep(s', last, failing[n - 1]);
      var (s'', o) := Process(s', last, failing[n - 1]);
      assert RunAll(s, datagrams, failing) == (s'', outcomes + [o]);
      SaveAttemptsSnoc(outcomes, o);
      BestLapsPrefix(datagrams);
    }
  }

  /** The listener task together with the websocket client list. */
  class UdpListener {
    var bestlapOld: Option<Float32>
    var store: seq<LapRecord>
    var clients: seq<ClientId>
    var running: bool

    function Current(): State
      reads this
    {
      State(bestlapOld, store, clients, running)
    }

    ghost predicate Valid()
      reads this
    {
      Inv(Current())
    }

    /** The task starts with `bestlapOLD = None` over whatever table the database holds. */
    constructor (records: seq<LapRecord>)
      requires KeysUnique(records)
      ensures Valid()
      ensures Current() == State(None, records, [], true)
    {
      bestlapOld, store, clients, running := None, records, [], true;
    }

    /** `clients.append(websocket)` once a connection is accepted. */
    method Connect(c: ClientId)
      requires Valid()
      modifies this
      ensures Valid()
      ensures Current() == old(Current()).(clients := old(clients) + [c])
    {
      clients := clients + [c];
    }

    /**
     * `clients.remove(websocket)` when the connection's coroutine is
     * interrupted; found is false where Python would raise ValueError.
     */
    method Disconnect(c: ClientId) returns (found: bool)
      requires Valid()
      modifies this
      ensures Valid()
      ensures found <==> c in old(clients)
      ensures Current() == old(Current()).(clients := RemoveFirst(old(clients), c))
    {
      found := c in clients;
      clients := RemoveFirst(clients, c);
    }

    /** `salvarDB`: add and commit; a refused commit is logged, never raised. */
    method SaveLap(rec: LapRecord) returns (outcome: InsertOutcome)
      requires Valid()
      modifies this
      ensures Valid()
      ensures (store, outcome) == Insert(old(store), rec)
      ensures Current() == old(Current()).(store := store)
    {
      var inserted := Insert(store, rec);
      store, outcome := inserted.0, inserted.1;
    }

    /** One iteration of the `while True` loop on a received datagram. */
    method Step(data: seq<Byte>, failing: set<ClientId>) returns (o: StepOutcome)
      requires Valid()
      modifies this
      ensures Valid()
      ensures (Current(), o) == Process(old(Current()), data, failing)
    {
      if !running {
        return Stopped;
      }
      if |data| < MinDatagram {
        return Runt;
      }
      var decoded := Decode(data);
      if decoded.StructError? {
        return Undecodable;
      }
      var reading := decoded.value;
      var carro := CarName(reading.carId);
      var corridastatus := RaceStatus(reading.isRaceOn);
      var saved: Option<InsertOutcome> := None;
      if carro != "" && !IsZero(reading.bestLap) && reading.lapNumber != 0 {
        if bestlapOld.None? || !Equal(bestlapOld.value, reading.bestLap) {
          var outcome := SaveLap(LapRecord(carro, reading.bestLap, reading.lapNumber));
          saved := Some(outcome);
          bestlapOld := Some(reading.bestLap);
        }
      }
      var msg := MakeSnapshot(reading, carro, corridastatus);
      if msg.None? {
        running := false;
        return MessageFailed(saved);
      }
      var sent, failed := Broadcast(clients, msg.value, failing);
      if failed.Some? {
        running := false;
      }
      o := Processed(saved, msg.value, sent, failed);
    }

    /** The loop run over a finite sequence of received datagrams. */
    method Run(datagrams: seq<seq<Byte>>, failing: seq<set<ClientId>>) returns (outcomes: seq<StepOutcome>)
      requires Valid()
      requires |failing| == |datagrams|
      modifies this
      ensures Valid()
      ensures (Current(), outcomes) == RunAll(old(Current()), datagrams, failing)
    {
      outcomes := [];
      var i := 0;
      while i < |datagrams|
        invariant 0 <= i <= |datagrams|
        invariant Valid()
        invariant (Current(), outcomes) == RunAll(old(Current()), datagrams[..i], failing[..i])
      {
        var o := Step(datagrams[i], failing[i]);
        assert datagrams[..i + 1][..i] == datagrams[..i];
        assert failing[..i + 1][..i] == failing[..i];
        outcomes := outcomes + [o];
        i := i + 1;
      }
      assert datagrams[..i] == datagrams;
      assert failing[..i] == failing;
    }
  }
}
