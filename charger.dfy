/** The driver object itself (class `charger`): its fields, the bus
    operations built on one transfer each, `init`, `setMode` and `monitor`.
    Every method is proved to change the object exactly as the matching
    function of MonitorModel says; the properties are proved about those
    functions. */
module Charger {
  import opened Device
  import opened Decode
  import opened MonitorModel

  class Charger {
    /** The device's bus address, chosen at start-up. */
    const address: int
    /** The transport: its reply to each transfer, in order. */
    const bus: Bus

    var systemstateRun: bool
    var topicInitialized: bool
    /** The work queue: delays of the ticks waiting to run, oldest first. */
    var pending: seq<int>
    /** Every advertise and publish on the batt_info topic, oldest first. */
    var events: seq<Event>
    /** Every transfer issued so far; its length is the index of the next reply. */
    var trace: seq<Transaction>

    function State(): DriverState
      reads this
    {
      DriverState(systemstateRun, topicInitialized, pending, events, trace)
    }

    constructor (address: int, bus: Bus)
      ensures this.address == address && this.bus == bus
      ensures State() == Initial
    {
      this.address := address;
      this.bus := bus;
      systemstateRun := false;
      topicInitialized := false;
      pending := [];
      events := [];
      trace := [];
    }

    /** One I2C transfer: write `send`, read `recvLen` bytes, return the reply. */
    method Transfer(send: seq<Byte>, recvLen: nat) returns (reply: Reply)
      modifies this`trace
      ensures trace == old(trace) + [Transaction(send, recvLen)]
      ensures reply == bus(|old(trace)|)
    {
      reply := bus(|trace|);
      trace := trace + [Transaction(send, recvLen)];
    }

    /** `init`, after `I2C::init` returned `i2cStatus`: the ADC and the GPIO
        expander get their configuration byte, the balancer nothing. */
    method Init(i2cStatus: int) returns (status: int)
      modifies this`trace
      ensures trace == old(trace) + (if i2cStatus == OK then InitConfig(address) else [])
      ensures status == InitStatus(address, i2cStatus, bus, |old(trace)|)
    {
      if i2cStatus != OK {
        return i2cStatus;
      }
      if address == HssAdcAddress {
        var reply := Transfer([AdcConfReg, ConfigByte], 0);
        if reply.status != OK {
          return reply.status;
        }
      } else if address == HssGpioAddress {
        var reply := Transfer([GpioConfReg, ConfigByte], 0);
        if reply.status != OK {
          return reply.status;
        }
      }
      return OK;
    }

    method GetVoltage() returns (status: int, voltage: int)
      modifies this`trace
      ensures trace == old(trace) + [VoltageRead]
      ensures status == bus(|old(trace)|).status
      ensures voltage == LittleEndian16(bus(|old(trace)|).b0, bus(|old(trace)|).b1)
    {
      var reply := Transfer([BalancerVoltageReg], 2);
      status, voltage := reply.status, LittleEndian16(reply.b0, reply.b1);
    }

    method GetUpsCurrent() returns (status: int, current: int)
      modifies this`trace
      ensures trace == old(trace) + [CurrentRead]
      ensures status == bus(|old(trace)|).status
      ensures current == UpsCurrent(bus(|old(trace)|).b0, bus(|old(trace)|).b1)
    {
      var reply := Transfer([BalancerCurrentReg], 2);
      status, current := reply.status, UpsCurrent(reply.b0, reply.b1);
    }

    method GetHssCurrent() returns (status: int, current: int)
      modifies this`trace
      ensures trace == old(trace) + [HssRead]
      ensures status == bus(|old(trace)|).status
      ensures current == HssCurrent(bus(|old(trace)|).b0, bus(|old(trace)|).b1)
    {
      var reply := Transfer([], 2);
      status, current := reply.status, HssCurrent(reply.b0, reply.b1);
    }

    method GetGpio() returns (status: int, toggle: bool)
      modifies this`trace
      ensures trace == old(trace) + [GpioRead]
      ensures status == bus(|old(trace)|).status
      ensures toggle == GpioStatus(bus(|old(trace)|).b0)
    {
      var reply := Transfer([GpioDataReg], 1);
      status, toggle := reply.status, GpioStatus(reply.b0);
    }

    method SetGpio(toggle: bool) returns (status: int)
      modifies this`trace
      ensures trace == old(trace) + [GpioWrite(toggle)]
      ensures status == bus(|old(trace)|).status
    {
      var reply := Transfer([GpioDataReg, GpioByte(toggle)], 0);
      status := reply.status;
    }

    method SetMode(mode: int) returns (status: int)
      modifies this`systemstateRun, this`pending
      ensures status == OK
      ensures State() == MonitorModel.SetMode(old(State()), mode)
    {
      if mode == 1 {
        if !systemstateRun {
          systemstateRun := true;
          pending := pending + [FirstDelay];
        }
      } else {
        systemstateRun := false;
      }
      return OK;
    }

    /** The balancer branch of a tick: voltage, then UPS current, each read
        once more when it is its sentinel; a failed first read aborts. */
    method ReadBalancer() returns (aborted: bool, voltage: int, upsCurrent: int)
      modifies this`trace
      ensures var p := CurrentStep(bus, VoltageStep(bus, Poll(old(trace), false, NoReadings)));
        trace == p.trace && aborted == p.aborted &&
        (!aborted ==> p.info == NoReadings.(voltage := voltage, upsCurrent := upsCurrent))
    {
      var status, ignored;
      ghost var p := VoltageStep(bus, Poll(trace, false, NoReadings));
      upsCurrent := 0;
      status, voltage := GetVoltage();
      if status != OK {
        return true, voltage, upsCurrent;
      }
      if voltage == VoltageErr {
        ignored, voltage := GetVoltage();
      }
      assert !p.aborted && trace == p.trace && p.info == NoReadings.(voltage := voltage);
      p := CurrentStep(bus, p);
      status, upsCurrent := GetUpsCurrent();
      if status != OK {
        assert p.aborted && trace == p.trace;
        return true, voltage, upsCurrent;
      }
      if upsCurrent == UpsCurrentErr {
        ignored, upsCurrent := GetUpsCurrent();
      }
      assert !p.aborted && trace == p.trace && p.info == NoReadings.(voltage := voltage, upsCurrent := upsCurrent);
      aborted := false;
    }

    /** The reads of a tick, chosen by three address tests in a row; the
        first failed read ends them. */
    method ReadDevice() returns (aborted: bool, info: BattInfo)
      modifies this`trace
      ensures var p := PollAt(address, bus, old(trace));
        trace == p.trace && aborted == p.aborted && (!aborted ==> info == p.info)
    {
      var voltage, upsCurrent, hssCurrent, gpioStatus := 0, 0, 0, false;
      var status;
      info := NoReadings;
      if address == Ups0Address {
        aborted, voltage, upsCurrent := ReadBalancer();
        if aborted {
          return;
        }
      }
      if address == HssAdcAddress {
        status, hssCurrent := GetHssCurrent();
        if status != OK {
          return true, info;
        }
      }
      if address == HssGpioAddress {
        status, gpioStatus := GetGpio();
        if status != OK {
          return true, info;
        }
      }
      aborted, info := false, BattInfo(voltage, upsCurrent, hssCurrent, gpioStatus);
    }

    /** One tick of the monitor, as the work queue runs it. */
    method Monitor()
      modifies this`trace, this`events, this`topicInitialized, this`pending
      ensures State() == Tick(address, bus, old(State()))
    {
      var aborted, info := ReadDevice();
      if aborted {
        return;
      }
      if info.voltage != VoltageErr && info.upsCurrent != UpsCurrentErr {
        if !topicInitialized {
          events := events + [Advertise(info)];
          topicInitialized := true;
        } else {
          events := events + [Publish(info)];
        }
      }
      if systemstateRun {
        pending := pending + [MonitorInterval];
      }
    }

    /** The work queue takes its first tick off the queue and runs it. */
    method RunQueued()
      requires pending != []
      modifies this`trace, this`events, this`topicInitialized, this`pending
      ensures State() == MonitorModel.RunQueued(address, bus, old(State()))
    {
      pending := pending[1..];
      Monitor();
    }
  }
}
