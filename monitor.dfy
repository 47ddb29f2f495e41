/** The charger driver's monitor as a state machine on values: the driver's
    state, one tick of `monitor`, `setMode`, the work queue running its head
    and the configuration write of `init`. The class in module Charger is
    proved to step exactly as these functions say. */
module MonitorModel {
  import opened Device
  import opened Decode

  /** What the bus hands back for one transfer: its status and the first two
      bytes of the receive buffer. After a failed transfer the bytes stand
      for whatever the uninitialised buffer held, so nothing is known of them. */
  datatype Reply = Reply(status: int, b0: Byte, b1: Byte)

  /** The bus as the driver sees it: the reply to its n-th transfer. */
  type Bus = nat -> Reply

  /** One transfer as the driver issues it: bytes written, bytes then read. */
  datatype Transaction = Transaction(send: seq<Byte>, recvLen: nat)

  /** The four transfers a tick can issue. */
  const VoltageRead := Transaction([BalancerVoltageReg], 2)
  const CurrentRead := Transaction([BalancerCurrentReg], 2)
  const HssRead := Transaction([], 2)
  const GpioRead := Transaction([GpioDataReg], 1)

  /** The transfer set_gpio issues. */
  function GpioWrite(toggle: bool): Transaction {
    Transaction([GpioDataReg, GpioByte(toggle)], 0)
  }

  /** A batt_info snapshot. */
  datatype BattInfo = BattInfo(voltage: int, upsCurrent: int, hssCurrent: int, gpioStatus: bool)

  /** What the driver does on the batt_info topic: advertise it with a first
      snapshot, or publish a later one. */
  datatype Event = Advertise(info: BattInfo) | Publish(info: BattInfo)

  /** Delay of the first tick queued by setMode, and of every re-queue. */
  const FirstDelay := 1
  const MonitorInterval := 1000

  /** The driver's state: the run flag, whether the topic is advertised, the
      delays of the ticks waiting in the work queue, everything done on the
      topic and every transfer issued, oldest first. */
  datatype DriverState = DriverState(
    run: bool,
    topicInitialized: bool,
    pending: seq<int>,
    events: seq<Event>,
    trace: seq<Transaction>)

  /** State right after construction. */
  const Initial := DriverState(false, false, [], [], [])

  /** A tick in progress: every transfer issued so far (so the next reply is
      the bus's |trace|-th), whether a primary read has failed (which ends the
      tick) and the readings gathered so far. */
  datatype Poll = Poll(trace: seq<Transaction>, aborted: bool, info: BattInfo)

  const NoReadings := BattInfo(0, 0, 0, false)

  /** Read the voltage; a reading equal to the sentinel is read once more,
      and the status of that second read is not looked at. */
  function VoltageStep(bus: Bus, p: Poll): Poll {
    if p.aborted then p
    else
      var r := bus(|p.trace|);
      if r.status != OK then p.(trace := p.trace + [VoltageRead], aborted := true)
      else if LittleEndian16(r.b0, r.b1) == VoltageErr then
        var r' := bus(|p.trace| + 1);
        p.(trace := p.trace + [VoltageRead, VoltageRead], info := p.info.(voltage := LittleEndian16(r'.b0, r'.b1)))
      else p.(trace := p.trace + [VoltageRead], info := p.info.(voltage := LittleEndian16(r.b0, r.b1)))
  }

  /** Read the UPS current, with the same single retry on its sentinel. */
  function CurrentStep(bus: Bus, p: Poll): Poll {
    if p.aborted then p
    else
      var r := bus(|p.trace|);
      if r.status != OK then p.(trace := p.trace + [CurrentRead], aborted := true)
      else if UpsCurrent(r.b0, r.b1) == UpsCurrentErr then
        var r' := bus(|p.trace| + 1);
        p.(trace := p.trace + [CurrentRead, CurrentRead], info := p.info.(upsCurrent := UpsCurrent(r'.b0, r'.b1)))
      else p.(trace := p.trace + [CurrentRead], info := p.info.(upsCurrent := UpsCurrent(r.b0, r.b1)))
  }

  /** Read the HSS current; no retry. */
  function HssStep(bus: Bus, p: Poll): Poll {
    if p.aborted then p
    else
      var r := bus(|p.trace|);
      if r.status != OK then p.(trace := p.trace + [HssRead], aborted := true)
      else p.(trace := p.trace + [HssRead], info := p.info.(hssCurrent := HssCurrent(r.b0, r.b1)))
  }

  /** Read the GPIO toggle; no retry. */
  function GpioStep(bus: Bus, p: Poll): Poll {
    if p.aborted then p
    else
      var r := bus(|p.trace|);
      if r.status != OK then p.(trace := p.trace + [GpioRead], aborted := true)
      else p.(trace := p.trace + [GpioRead], info := p.info.(gpioStatus := GpioStatus(r.b0)))
  }

  /** The reads of one tick for a device at `address`, after the transfers
      in `trace`: three address tests made one after the other. */
  function PollAt(address: int, bus: Bus, trace: seq<Transaction>): Poll {
    var p0 := Poll(trace, false, NoReadings);
    var p1 := if address == Ups0Address then CurrentStep(bus, VoltageStep(bus, p0)) else p0;
    var p2 := if address == HssAdcAddress then HssStep(bus, p1) else p1;
    if address == HssGpioAddress then GpioStep(bus, p2) else p2
  }

  /** A snapshot is published only when neither balancer reading is its sentinel. */
  predicate Publishable(info: BattInfo) {
    info.voltage != VoltageErr && info.upsCurrent != UpsCurrentErr
  }

  /** Put a snapshot on the topic: advertise it the first time, publish after. */
  function Emit(s: DriverState, info: BattInfo): DriverState {
    if !s.topicInitialized then s.(events := s.events + [Advertise(info)], topicInitialized := true)
    else s.(events := s.events + [Publish(info)])
  }

  /** One run of `monitor`: the reads, then (unless a primary read failed)
      the snapshot and, while running, the re-queue. */
  function Tick(address: int, bus: Bus, s: DriverState): DriverState {
    var p := PollAt(address, bus, s.trace);
    var s1 := s.(trace := p.trace);
    if p.aborted then s1
    else
      var s2 := if Publishable(p.info) then Emit(s1, p.info) else s1;
      if s2.run then s2.(pending := s2.pending + [MonitorInterval]) else s2
  }

  /** `setMode`: mode 1 arms the monitor (queueing a first tick) unless it is
      already running; any other mode clears the run flag. */
  function SetMode(s: DriverState, mode: int): DriverState {
    if mode == 1 then
      if !s.run then s.(run := true, pending := s.pending + [FirstDelay]) else s
    else s.(run := false)
  }

  /** The work queue takes its first item and runs the tick. */
  function RunQueued(address: int, bus: Bus, s: DriverState): DriverState
    requires s.pending != []
  {
    Tick(address, bus, s.(pending := s.pending[1..]))
  }

  /** The configuration transfer `init` issues once the bus is open. */
  function InitConfig(address: int): (c: seq<Transaction>)
    ensures |c| <= 1
    ensures c == [] <==> address != HssAdcAddress && address != HssGpioAddress
    ensures c != [] ==> c[0].recvLen == 0 && |c[0].send| == 2 && c[0].send[1] == ConfigByte
    ensures address == HssAdcAddress ==> c == [Transaction([AdcConfReg, ConfigByte], 0)]
    ensures address == HssGpioAddress && address != HssAdcAddress ==> c == [Transaction([GpioConfReg, ConfigByte], 0)]
  {
    if address == HssAdcAddress then [Transaction([AdcConfReg, ConfigByte], 0)]
    else if address == HssGpioAddress then [Transaction([GpioConfReg, ConfigByte], 0)]
    else []
  }

  /** The status `init` returns: that of `I2C::init` if it failed, else that
      of the configuration write if there is one, else OK. */
  function InitStatus(address: int, i2cStatus: int, bus: Bus, n: nat): (status: int)
    ensures status == OK <==> i2cStatus == OK && (InitConfig(address) == [] || bus(n).status == OK)
    ensures i2cStatus != OK ==> status == i2cStatus
    ensures i2cStatus == OK && InitConfig(address) != [] ==> status == bus(n).status
  {
    if i2cStatus != OK then i2cStatus
    else if InitConfig(address) != [] then bus(n).status
    else OK
  }

  /** What the outside world does to the driver: the `monitor` and `off`
      commands (setMode 1 and 0, or any mode), and the work queue running
      the head of its queue. */
  datatype Command = Mode(mode: int) | Work

  function Step(address: int, bus: Bus, s: DriverState, c: Command): DriverState {
    match c
    case Mode(m) => SetMode(s, m)
    case Work => if s.pending == [] then s else RunQueued(address, bus, s)
  }

  function Run(address: int, bus: Bus, s: DriverState, cs: seq<Command>): DriverState
    decreases |cs|
  {
    if cs == [] then s else Run(address, bus, Step(address, bus, s, cs[0]), cs[1..])
  }
}
