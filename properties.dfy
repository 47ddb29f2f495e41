/** What the charger monitor guarantees, and what it does not: properties of
    MonitorModel's setMode, tick and command runs. */
module MonitorProperties {
  import opened Device
  import opened Decode
  import opened MonitorModel

  // ---------------------------------------------------------------- setMode

  /** setMode touches only the run flag and the work queue: it arms exactly
      when asked to run while stopped, and stops on every other mode. */
  lemma SetModeEffect(s: DriverState, mode: int)
    ensures var t := SetMode(s, mode);
      t.run == (mode == 1) &&
      t.pending == s.pending + (if mode == 1 && !s.run then [FirstDelay] else []) &&
      t.events == s.events && t.trace == s.trace && t.topicInitialized == s.topicInitialized
  {
  }

  /** Repeating a mode changes nothing: a second `off` is harmless, and a
      second `monitor` while running queues no second tick. */
  lemma SetModeIdempotent(s: DriverState, mode: int)
    ensures SetMode(SetMode(s, mode), mode) == SetMode(s, mode)
  {
  }

  /** Arming is guarded only by the run flag, not by the queue: `monitor`,
      `off`, `monitor` with no tick run in between leaves two ticks queued. */
  lemma OffThenOnQueuesTwice(address: int, bus: Bus)
    ensures Run(address, bus, Initial, [Mode(1), Mode(0), Mode(1)]).pending == [FirstDelay, FirstDelay]
  {
  }

  // ------------------------------------------------------------------- tick

  /** A tick changes neither the run flag nor, when its reads failed, the
      topic or the queue: the monitor stops while still marked running. */
  lemma TickAbort(address: int, bus: Bus, s: DriverState)
    requires PollAt(address, bus, s.trace).aborted
    ensures var t := Tick(address, bus, s);
      t.run == s.run && t.events == s.events && t.topicInitialized == s.topicInitialized &&
      t.pending == s.pending
  {
  }

  /** A completed tick puts one snapshot on the topic exactly when neither
      balancer reading is its sentinel: an advertise the first time, a
      publish after that. */
  lemma TickPublish(address: int, bus: Bus, s: DriverState)
    ensures var p := PollAt(address, bus, s.trace); var t := Tick(address, bus, s);
      (!p.aborted && Publishable(p.info) ==>
        t.topicInitialized &&
        t.events == s.events + [if s.topicInitialized then Publish(p.info) else Advertise(p.info)]) &&
      (p.aborted || !Publishable(p.info) ==>
        t.events == s.events && t.topicInitialized == s.topicInitialized)
  {
  }

  /** A tick re-queues itself, with the monitor interval, exactly when its
      reads completed and the run flag is set. */
  lemma TickRequeue(address: int, bus: Bus, s: DriverState)
    ensures var p := PollAt(address, bus, s.trace); var t := Tick(address, bus, s);
      t.run == s.run &&
      t.pending == s.pending + (if !p.aborted && s.run then [MonitorInterval] else [])
  {
  }

  /** One read step appends one or two transfers (none once aborted) and
      keeps the readings in range. */
  predicate StepGrows(p: Poll, q: Poll) {
    p.trace <= q.trace &&
    (if p.aborted then q == p else |p.trace| < |q.trace| <= |p.trace| + 2) &&
    (InRange(p.info) ==> InRange(q.info))
  }

  lemma BalancerStepsGrow(bus: Bus, p: Poll)
    ensures StepGrows(p, VoltageStep(bus, p)) && StepGrows(p, CurrentStep(bus, p))
  {
  }

  lemma SingleReadStepsGrow(bus: Bus, p: Poll)
    ensures StepGrows(p, HssStep(bus, p)) && StepGrows(p, GpioStep(bus, p))
  {
  }

  /** The reads of a tick only ever append to the transfer trace, at most
      six transfers, and none at an address that is none of the three. */
  lemma PollExtendsTrace(address: int, bus: Bus, trace: seq<Transaction>)
    ensures var p := PollAt(address, bus, trace);
      trace <= p.trace && |p.trace| <= |trace| + 6 && InRange(p.info) &&
      (address != Ups0Address && address != HssAdcAddress && address != HssGpioAddress ==>
        p.trace == trace && !p.aborted && p.info == NoReadings)
  {
    var p0 := Poll(trace, false, NoReadings);
    var v := VoltageStep(bus, p0);
    BalancerStepsGrow(bus, p0);
    BalancerStepsGrow(bus, v);
    var p1 := if address == Ups0Address then CurrentStep(bus, v) else p0;
    SingleReadStepsGrow(bus, p1);
    var p2 := if address == HssAdcAddress then HssStep(bus, p1) else p1;
    SingleReadStepsGrow(bus, p2);
    var p3 := if address == HssGpioAddress then GpioStep(bus, p2) else p2;
    assert p3 == PollAt(address, bus, trace);
  }

  /** A read transfer, issued once, or twice when it was retried. */
  function Reads(read: Transaction, retried: bool): seq<Transaction> {
    if retried then [read, read] else [read]
  }

  /** At the balancer each value is read at most twice: a second time only
      when the first transfer succeeded and gave the sentinel. A failed first
      read of either value ends the tick. */
  lemma BalancerReads(bus: Bus, trace: seq<Transaction>)
    requires DistinctAddresses()
    ensures var p := PollAt(Ups0Address, bus, trace);
      var n := |trace|;
      var v := bus(n);
      var retryV := v.status == OK && LittleEndian16(v.b0, v.b1) == VoltageErr;
      var m := n + |Reads(VoltageRead, retryV)|;
      var c := bus(m);
      var retryC := c.status == OK && UpsCurrent(c.b0, c.b1) == UpsCurrentErr;
      (v.status != OK ==> p.aborted && p.trace == trace + [VoltageRead]) &&
      (v.status == OK && c.status != OK ==>
        p.aborted && p.trace == trace + Reads(VoltageRead, retryV) + [CurrentRead]) &&
      (v.status == OK && c.status == OK ==>
        !p.aborted && p.trace == trace + Reads(VoltageRead, retryV) + Reads(CurrentRead, retryC))
  {
  }

  /** The readings a completed balancer tick reports: each value comes from
      the retry when there was one, else from the first read. */
  lemma BalancerReadings(bus: Bus, trace: seq<Transaction>)
    requires DistinctAddresses()
    requires !PollAt(Ups0Address, bus, trace).aborted
    ensures var p := PollAt(Ups0Address, bus, trace);
      var n := |trace|;
      var v := bus(n);
      var retryV := LittleEndian16(v.b0, v.b1) == VoltageErr;
      var vr := if retryV then bus(n + 1) else v;
      var c := bus(n + |Reads(VoltageRead, retryV)|);
      var retryC := UpsCurrent(c.b0, c.b1) == UpsCurrentErr;
      var cr := if retryC then bus(n + |Reads(VoltageRead, retryV)| + 1) else c;
      p.info == BattInfo(LittleEndian16(vr.b0, vr.b1), UpsCurrent(cr.b0, cr.b1), 0, false)
  {
  }

  /** The bus with the status of its k-th reply replaced. */
  function WithStatus(bus: Bus, k: nat, status: int): (b: Bus)
    ensures b(k).status == status
  {
    (i: nat) => if i == k then bus(i).(status := status) else bus(i)
  }

  /** The status of the voltage retry is never looked at: the tick comes
      out the same whatever that transfer reports. */
  lemma VoltageRetryStatusIgnored(bus: Bus, trace: seq<Transaction>, status: int)
    requires DistinctAddresses()
    requires bus(|trace|).status == OK && LittleEndian16(bus(|trace|).b0, bus(|trace|).b1) == VoltageErr
    ensures PollAt(Ups0Address, WithStatus(bus, |trace| + 1, status), trace) == PollAt(Ups0Address, bus, trace)
  {
  }

  /** The ADC and the GPIO expander are read once per tick, and that read
      failing ends the tick. */
  lemma SingleReadDevices(bus: Bus, trace: seq<Transaction>)
    requires DistinctAddresses()
    ensures var r := bus(|trace|);
      var a := PollAt(HssAdcAddress, bus, trace);
      var g := PollAt(HssGpioAddress, bus, trace);
      a.trace == trace + [HssRead] && (a.aborted <==> r.status != OK) &&
      (!a.aborted ==> a.info == NoReadings.(hssCurrent := HssCurrent(r.b0, r.b1))) &&
      g.trace == trace + [GpioRead] && (g.aborted <==> r.status != OK) &&
      (!g.aborted ==> g.info == NoReadings.(gpioStatus := GpioStatus(r.b0)))
  {
  }

  /** The readings lie in the decoders' ranges. */
  predicate InRange(info: BattInfo) {
    0 <= info.voltage <= 0xFFFF && -32767 <= info.upsCurrent <= 32767 && 0 <= info.hssCurrent <= 1023
  }

  // ------------------------------------------------------------- scenarios

  /** Voltage bytes 0x10,0x00 and current bytes 0xFF,0x7F publish (16, 32767). */
  lemma ScenarioBalancerPublishes(bus: Bus, s: DriverState)
    requires DistinctAddresses() && VoltageErr != 16 && UpsCurrentErr != 32767
    requires bus(|s.trace|) == Reply(OK, 0x10, 0x00) && bus(|s.trace| + 1) == Reply(OK, 0xFF, 0x7F)
    ensures var info := BattInfo(16, 32767, 0, false);
      Tick(Ups0Address, bus, s).events == s.events + [if s.topicInitialized then Publish(info) else Advertise(info)]
  {
    BalancerReadings(bus, s.trace);
  }

  /** A sentinel voltage followed by a good one publishes the good one, after
      exactly two voltage reads. */
  lemma ScenarioVoltageRetry(bus: Bus, s: DriverState, lo: Byte, hi: Byte)
    requires DistinctAddresses() && VoltageErr != 16 && UpsCurrentErr != 32767
    requires bus(|s.trace|) == Reply(OK, lo, hi) && LittleEndian16(lo, hi) == VoltageErr
    requires bus(|s.trace| + 1).b0 == 0x10 && bus(|s.trace| + 1).b1 == 0x00
    requires bus(|s.trace| + 2) == Reply(OK, 0xFF, 0x7F)
    ensures var info := BattInfo(16, 32767, 0, false);
      var t := Tick(Ups0Address, bus, s);
      t.trace == s.trace + [VoltageRead, VoltageRead, CurrentRead] &&
      t.events == s.events + [if s.topicInitialized then Publish(info) else Advertise(info)]
  {
    BalancerReads(bus, s.trace);
    BalancerReadings(bus, s.trace);
  }

  /** A failed GPIO read: nothing published, nothing queued. */
  lemma ScenarioGpioFailure(bus: Bus, s: DriverState)
    requires DistinctAddresses()
    requires bus(|s.trace|).status != OK
    ensures var t := Tick(HssGpioAddress, bus, s);
      t.events == s.events && t.pending == s.pending && t.run == s.run
  {
    SingleReadDevices(bus, s.trace);
  }

  // ------------------------------------------------------ runs of commands

  /** No command in the run is `off` (any mode other than 1). */
  predicate NeverOff(cs: seq<Command>) {
    forall i :: 0 <= i < |cs| && cs[i].Mode? ==> cs[i].mode == 1
  }

  /** Stalled: marked running with nothing queued, as a failed tick leaves
      a monitor that had one tick queued. */
  predicate Stalled(s: DriverState) {
    s.run && s.pending == []
  }

  /** A failed read in the only queued tick stalls the monitor. */
  lemma FailedTickStalls(address: int, bus: Bus, s: DriverState)
    requires s.run && |s.pending| == 1
    requires PollAt(address, bus, s.trace).aborted
    ensures Stalled(RunQueued(address, bus, s))
  {
  }

  /** Once stalled, no `monitor` command and no work-queue step revives it:
      only `off` followed by `monitor` does. */
  lemma {:induction false} StallPersists(address: int, bus: Bus, s: DriverState, cs: seq<Command>)
    requires Stalled(s) && NeverOff(cs)
    ensures Run(address, bus, s, cs) == s
    decreases |cs|
  {
    if cs != [] {
      assert Step(address, bus, s, cs[0]) == s;
      assert NeverOff(cs[1..]) by {
        forall i | 0 <= i < |cs[1..]| && cs[1..][i].Mode?
          ensures cs[1..][i].mode == 1
        {
          assert cs[1..][i] == cs[i + 1];
        }
      }
      StallPersists(address, bus, s, cs[1..]);
    }
  }

  /** `off` then `monitor` re-arms a stalled monitor with one tick. */
  lemma OffThenOnRevives(s: DriverState)
    requires Stalled(s)
    ensures var t := SetMode(SetMode(s, 0), 1); t.run && t.pending == [FirstDelay]
  {
  }

  /** After `off`, each tick the queue runs is one fewer: the chain ends. */
  lemma OffDrains(address: int, bus: Bus, s: DriverState)
    requires !s.run && s.pending != []
    ensures var t := RunQueued(address, bus, s); !t.run && t.pending == s.pending[1..]
  {
  }

  /** At most one tick queued, and none while stopped. */
  predicate SingleTick(s: DriverState) {
    |s.pending| <= 1 && (!s.run ==> s.pending == [])
  }

  /** Without `off`, the monitor never has more than one tick queued. */
  lemma {:induction false} NeverOffKeepsSingleTick(address: int, bus: Bus, s: DriverState, cs: seq<Command>)
    requires SingleTick(s) && NeverOff(cs)
    ensures SingleTick(Run(address, bus, s, cs))
    decreases |cs|
  {
    if cs != [] {
      var s' := Step(address, bus, s, cs[0]);
      if cs[0].Work? && s.pending != [] {
        TickRequeue(address, bus, s.(pending := s.pending[1..]));
      }
      assert SingleTick(s');
      assert NeverOff(cs[1..]) by {
        forall i | 0 <= i < |cs[1..]| && cs[1..][i].Mode?
          ensures cs[1..][i].mode == 1
        {
          assert cs[1..][i] == cs[i + 1];
        }
      }
      NeverOffKeepsSingleTick(address, bus, s', cs[1..]);
    }
  }

  /** The topic log is well formed: an advertise comes first, publishes
      after it, the topic counts as initialised once something is on it,
      and every snapshot on it is publishable with its values in range. */
  predicate WellFormedLog(s: DriverState) {
    (s.topicInitialized <==> s.events != []) &&
    (forall i :: 0 <= i < |s.events| ==> (s.events[i].Advertise? <==> i == 0)) &&
    (forall i :: 0 <= i < |s.events| ==> Publishable(s.events[i].info) && InRange(s.events[i].info))
  }

  lemma StepKeepsLog(address: int, bus: Bus, s: DriverState, c: Command)
    requires WellFormedLog(s)
    ensures WellFormedLog(Step(address, bus, s, c))
  {
    if c.Work? && s.pending != [] {
      var s0 := s.(pending := s.pending[1..]);
      TickPublish(address, bus, s0);
      PollExtendsTrace(address, bus, s0.trace);
    }
  }

  /** Whatever the commands and whatever the bus replies, the topic log of
      a freshly built driver stays well formed. */
  lemma {:induction false} RunKeepsLog(address: int, bus: Bus, s: DriverState, cs: seq<Command>)
    requires WellFormedLog(s)
    ensures WellFormedLog(Run(address, bus, s, cs))
    decreases |cs|
  {
    if cs != [] {
      StepKeepsLog(address, bus, s, cs[0]);
      RunKeepsLog(address, bus, Step(address, bus, s, cs[0]), cs[1..]);
    }
  }

  lemma InitialLogWellFormed()
    ensures !Initial.run && !Initial.topicInitialized && Initial.pending == [] && Initial.events == []
    ensures WellFormedLog(Initial) && SingleTick(Initial)
  {
  }
}
