/**
 * The HerkuleX simple API: a controller bound to one device profile that
 * validates its arguments and turns each request into an ordered sequence of
 * bus transactions.
 *
 * Every method issues nothing when the ID it is given fails `checkId`, and
 * reports failure (0, or -1 for a read). A write to both banks reports
 * success (1) as soon as either bank's write succeeded.
 */
module SimpleApi {
  import opened Wrappers
  import opened Transport
  import opened Registers
  import opened Profiles
  import opened Values
  import opened Scan

  /**
   * The `broadcast` argument `checkId` takes when a caller leaves it out
   * (its default is declared in a header that is not part of this model;
   * the callers that must refuse the broadcast ID pass `false` explicitly).
   */
  const DEFAULT_BROADCAST: bool := true

  /** Outcome of a request ending with two writes, after `pre`. */
  lemma WritesOutcome(es: seq<Entry>, pre: seq<Entry>, a: Entry, b: Entry)
    requires es == pre + [a, b] && a.txn.Write? && b.txn.Write?
    ensures SomeWriteSucceeded(es) <==> SomeWriteSucceeded(pre) || a.ok || b.ok
  {
    assert [a, b] == [a] + [b];
    SomeWriteSucceededSplit(pre, [a, b]);
    SomeWriteSucceededSplit([a], [b]);
    SomeWriteSucceededOne(a);
    SomeWriteSucceededOne(b);
  }

  /** Outcome of a request made of four writes. */
  lemma FourWritesOutcome(es: seq<Entry>)
    requires |es| == 4
    requires es[0].txn.Write? && es[1].txn.Write? && es[2].txn.Write? && es[3].txn.Write?
    ensures SomeWriteSucceeded(es) <==> es[0].ok || es[1].ok || es[2].ok || es[3].ok
  {
  }

  lemma AppendAssoc<T>(a: seq<T>, b: seq<T>, c: seq<T>)
    ensures (a + b) + c == a + (b + c)
  {
  }

  class HerkuleXSimpleApi {
    var ackPolicy: int
    var maxId: int
    var protocolVersion: int
    /** The control table of the declared series (`ct`). */
    var ct: Option<TableName>
    /** The control tables (`getRegisterTable`, `getRegisterInfos`, `getRegisterAddr`). */
    const registry: Registry
    /** The serial bus, with its log of transactions. */
    const bus: Bus

    function CurrentProfile(): Profile
      reads this
    {
      Profile(ackPolicy, maxId, protocolVersion, ct)
    }

    /**
     * Binds the controller to the profile of `servoSerie`. `usb2ax` says
     * whether the serial device is a USB2AX adapter; `initial` holds the
     * values the fields keep when the series is unknown.
     */
    constructor (servoSerie: Family, usb2ax: bool, initial: Profile, registry: Registry, bus: Bus)
      ensures CurrentProfile() == SelectProfile(servoSerie, usb2ax, initial)
      ensures this.registry == registry && this.bus == bus
    {
      this.registry := registry;
      this.bus := bus;
      ackPolicy := initial.ackPolicy;
      maxId := initial.maxId;
      protocolVersion := initial.protocolVersion;
      ct := initial.table;
      var serie := servoSerie;
      if serie != Unknown {
        if Rank(serie) >= Rank(HerkuleX) {
          ackPolicy := 1;
          maxId := 253;
          protocolVersion := 1;
          serie := DRS;
          if serie == DRS0402 || serie == DRS0602 {
            ct := Some(DRS0x02Table);
          } else if serie == DRS0401 || serie == DRS0601 {
            ct := Some(DRS0x01Table);
          } else {
            ct := Some(DRS0101Table);
          }
        } else {
          ackPolicy := 2;
          maxId := 252;
          if Rank(serie) >= Rank(PRO) {
            protocolVersion := 2;
            serie := PRO;
            ct := Some(PROTable);
          } else if Rank(serie) >= Rank(XL) {
            protocolVersion := 2;
            serie := XL;
            ct := Some(XL320Table);
          } else {
            protocolVersion := 1;
            serie := MX;
            ct := Some(MXTable);
            if usb2ax {
              maxId := 252;
            } else {
              maxId := 253;
            }
          }
        }
      }
    }

    /** `checkId`: `IdAccepted` under the controller's current `maxId`. */
    function CheckId(id: int, broadcast: bool): (accepted: bool)
      reads this
      ensures accepted <==> IdAccepted(maxId, id, broadcast)
      ensures accepted && !broadcast ==> 0 <= id <= maxId
    {
      IdAccepted(maxId, id, broadcast)
    }

    /** `getRegisterAddr(ct, name, bank)`. */
    function Addr(name: Reg, b: Bank): int
      reads this
    {
      RegisterAddr(registry, ct, name, b)
    }

    /** `ping`: pings any ID, without checking it. */
    method Ping(id: int) returns (found: bool)
      modifies bus
      ensures bus.log == old(bus.log) + [Entry(Transport.Ping(id), found)]
      ensures found == bus.ok(|old(bus.log)|)
    {
      bus.Send(Transport.Ping(id));
      found := bus.LastOk();
    }

    /** `reboot`. */
    method Reboot(id: int)
      modifies bus
      ensures bus.log == if CheckId(id, DEFAULT_BROADCAST)
                         then old(bus.log) + [Entry(Transport.Reboot(id), bus.ok(|old(bus.log)|))]
                         else old(bus.log)
    {
      if CheckId(id, DEFAULT_BROADCAST) {
        bus.Send(Transport.Reboot(id));
      }
    }

    /** `reset`. */
    method Reset(id: int, setting: int)
      modifies bus
      ensures bus.log == if CheckId(id, DEFAULT_BROADCAST)
                         then old(bus.log) + [Entry(Transport.Reset(id, setting), bus.ok(|old(bus.log)|))]
                         else old(bus.log)
    {
      if CheckId(id, DEFAULT_BROADCAST) {
        bus.Send(Transport.Reset(id, setting));
      }
    }

    /**
     * One step of `servoScan`: ping `id` and, when a servo answers, blink
     * its LED green then off.
     */
    method Probe(id: int) returns (found: bool)
      requires 0 <= id <= maxId
      modifies bus
      ensures found == bus.ok(|old(bus.log)|)
      ensures bus.log == old(bus.log) + Probed(bus.ok, Addr(Led, Ram), id, |old(bus.log)|)
    {
      found := Ping(id);
      if found {
        var _ := SetLed(id, 1, {Green});
        var _ := SetLed(id, 0, {Green});
      }
    }

    /**
     * `servoScan`: pings every ID of the corrected range in increasing
     * order; each servo that answers is reported, and blinked green once.
     */
    method ServoScan(start: int, stop: int) returns (ids: seq<int>)
      modifies bus
      ensures var r := ScanFrom(bus.ok, Addr(Led, Ram), ScanStart(maxId, start),
                                ScanStop(maxId, start, stop), |old(bus.log)|);
              ids == r.ids && bus.log == old(bus.log) + r.entries
      ensures Increasing(ids) && Within(ids, ScanStart(maxId, start), ScanStop(maxId, start, stop))
      ensures forall x :: ScanStart(maxId, start) <= x <= ScanStop(maxId, start, stop) ==>
                (x in ids <==> Entry(Transport.Ping(x), true) in bus.log[|old(bus.log)|..])
    {
      var s := start;
      if s < 0 || s > maxId - 1 {
        s := 0;
      }
      var e := stop;
      if e < 1 || e > maxId || e < s {
        e := maxId;
      }
      assert s == ScanStart(maxId, start) && e == ScanStop(maxId, start, stop);

      ids := ScanRange(s, e);
      ScanProperties(bus.ok, Addr(Led, Ram), s, e, |old(bus.log)|);
    }

    /** The loop of `servoScan` over IDs `s` to `e`. */
    method ScanRange(s: int, e: int) returns (ids: seq<int>)
      requires 0 <= s && e <= maxId
      modifies bus
      ensures var r := ScanFrom(bus.ok, Addr(Led, Ram), s, e, |old(bus.log)|);
              ids == r.ids && bus.log == old(bus.log) + r.entries
    {
      ghost var led := Addr(Led, Ram);
      ghost var k := |bus.log|;
      ghost var whole := ScanFrom(bus.ok, led, s, e, k);
      ghost var done: seq<Entry> := [];
      ids := [];
      var id := s;
      while id <= e
        invariant s <= id
        invariant bus.log == old(bus.log) + done && k == |bus.log|
        invariant ids + ScanFrom(bus.ok, led, id, e, k).ids == whole.ids
        invariant done + ScanFrom(bus.ok, led, id, e, k).entries == whole.entries
        decreases e + 1 - id
      {
        ScanAdvance(bus.ok, led, id, e, k, ids, done, whole);
        ghost var p := Probed(bus.ok, led, id, k);
        ghost var before := ids;
        var found := Probe(id);
        if found {
          ids := ids + [id];
        }
        assert ids == before + (if found then [id] else []);
        AppendAssoc(old(bus.log), done, p);
        done := done + p;
        k := k + |p|;
        id := id + 1;
      }
      assert ids == whole.ids;
    }

    /**
     * `changeId`: refuses an old ID that fails `checkId` (broadcast not
     * allowed) and a new ID outside [0, maxId]; refuses also when a servo
     * already answers on the new ID. Otherwise writes the new ID to ROM then
     * to RAM.
     */
    method ChangeId(oldId: int, newId: int) returns (status: int)
      modifies bus
      ensures var n := |old(bus.log)|;
              if !CheckId(oldId, false) || !(0 <= newId <= maxId) then
                status == 0 && bus.log == old(bus.log)
              else if bus.ok(n) then
                status == 0 && bus.log == old(bus.log) + [Entry(Transport.Ping(newId), true)]
              else
                bus.log == old(bus.log)
                  + [Entry(Transport.Ping(newId), false),
                     Entry(Write(oldId, Addr(Id, Rom), newId, Rom, Byte), bus.ok(n + 1)),
                     Entry(Write(oldId, Addr(Id, Ram), newId, Ram, Byte), bus.ok(n + 2))]
                && status == (if bus.ok(n + 1) || bus.ok(n + 2) then 1 else 0)
      ensures status == 1 <==> SomeWriteSucceeded(bus.log[|old(bus.log)|..])
    {
      status := 0;
      ghost var n := |bus.log|;
      if CheckId(oldId, false) {
        if 0 <= newId <= maxId {
          bus.Send(Transport.Ping(newId));
          if bus.LastOk() {
            assert bus.log[n..] == [Entry(Transport.Ping(newId), true)];
            SomeWriteSucceededOne(Entry(Transport.Ping(newId), true));
          } else {
            bus.Send(Write(oldId, Addr(Id, Rom), newId, Rom, Byte));
            if bus.LastOk() {
              status := 1;
            }
            bus.Send(Write(oldId, Addr(Id, Ram), newId, Ram, Byte));
            if bus.LastOk() {
              status := 1;
            }
            WritesOutcome(bus.log[n..], [Entry(Transport.Ping(newId), false)],
                          Entry(Write(oldId, Addr(Id, Rom), newId, Rom, Byte), bus.ok(n + 1)),
                          Entry(Write(oldId, Addr(Id, Ram), newId, Ram, Byte), bus.ok(n + 2)));
          }
        }
      }
    }

    /**
     * `changeBaudRate`: refuses a baud number outside [0, 34]; otherwise
     * writes it to ROM then to RAM.
     */
    method ChangeBaudRate(id: int, baudnum: int) returns (status: int)
      modifies bus
      ensures var n := |old(bus.log)|;
              if CheckId(id, DEFAULT_BROADCAST) && ValidBaudnum(baudnum) then
                bus.log == old(bus.log)
                  + [Entry(Write(id, Addr(BaudRate, Rom), baudnum, Rom, Byte), bus.ok(n)),
                     Entry(Write(id, Addr(BaudRate, Ram), baudnum, Ram, Byte), bus.ok(n + 1))]
                && status == (if bus.ok(n) || bus.ok(n + 1) then 1 else 0)
              else
                status == 0 && bus.log == old(bus.log)
      ensures status == 1 <==> SomeWriteSucceeded(bus.log[|old(bus.log)|..])
    {
      status := 0;
      ghost var n := |bus.log|;
      if CheckId(id, DEFAULT_BROADCAST) {
        if 0 <= baudnum <= 34 {
          bus.Send(Write(id, Addr(BaudRate, Rom), baudnum, Rom, Byte));
          if bus.LastOk() {
            status := 1;
          }
          bus.Send(Write(id, Addr(BaudRate, Ram), baudnum, Ram, Byte));
          if bus.LastOk() {
            status := 1;
          }
          WritesOutcome(bus.log[n..], [],
                        Entry(Write(id, Addr(BaudRate, Rom), baudnum, Rom, Byte), bus.ok(n)),
                        Entry(Write(id, Addr(BaudRate, Ram), baudnum, Ram, Byte), bus.ok(n + 1)));
        }
      }
    }

    /**
     * `getMinMaxPositions`: with a valid ID, reads both limits from RAM;
     * each output is the position read, or -1 after an error or for a value
     * outside [0, 4095]. With an invalid ID the outputs keep the caller's
     * values (`minIn`, `maxIn`).
     */
    method GetMinMaxPositions(id: int, minIn: int, maxIn: int) returns (min: int, max: int)
      modifies bus
      ensures var n := |old(bus.log)|;
              if CheckId(id, false) then
                bus.log == old(bus.log)
                  + [Entry(Read(id, Addr(MinPosition, Ram), Ram, Word), bus.ok(n)),
                     Entry(Read(id, Addr(MaxPosition, Ram), Ram, Word), bus.ok(n + 1))]
                && min == PositionOrInvalid(bus.ok(n), bus.reply(n))
                && max == PositionOrInvalid(bus.ok(n + 1), bus.reply(n + 1))
              else
                min == minIn && max == maxIn && bus.log == old(bus.log)
      ensures CheckId(id, false) ==> (min == -1 || ValidPosition(min)) && (max == -1 || ValidPosition(max))
    {
      min, max := minIn, maxIn;
      if CheckId(id, false) {
        min := bus.Request(Read(id, Addr(MinPosition, Ram), Ram, Word));
        if bus.LastOk() {
          if min < 0 || min > 4095 {
            min := -1;
          }
        } else {
          min := -1;
        }
        max := bus.Request(Read(id, Addr(MaxPosition, Ram), Ram, Word));
        if bus.LastOk() {
          if max < 0 || max > 4095 {
            max := -1;
          }
        } else {
          max := -1;
        }
      }
    }

    /** The four writes of `setMinMaxPositions`; 1 when any of them succeeded. */
    method WriteLimits(id: int, min: int, max: int) returns (status: int)
      modifies bus
      ensures var n := |old(bus.log)|;
              bus.log == old(bus.log)
                + [Entry(Write(id, Addr(MinPosition, Rom), min, Rom, Word), bus.ok(n)),
                   Entry(Write(id, Addr(MaxPosition, Rom), max, Rom, Word), bus.ok(n + 1)),
                   Entry(Write(id, Addr(MinPosition, Ram), min, Ram, Word), bus.ok(n + 2)),
                   Entry(Write(id, Addr(MaxPosition, Ram), max, Ram, Word), bus.ok(n + 3))]
              && status == (if bus.ok(n) || bus.ok(n + 1) || bus.ok(n + 2) || bus.ok(n + 3) then 1 else 0)
    {
      status := 0;
      var minRom, maxRom := Addr(MinPosition, Rom), Addr(MaxPosition, Rom);
      var minRam, maxRam := Addr(MinPosition, Ram), Addr(MaxPosition, Ram);
      bus.Send(Write(id, minRom, min, Rom, Word));
      if bus.LastOk() {
        status := 1;
      }
      bus.Send(Write(id, maxRom, max, Rom, Word));
      if bus.LastOk() {
        status := 1;
      }
      bus.Send(Write(id, minRam, min, Ram, Word));
      if bus.LastOk() {
        status := 1;
      }
      bus.Send(Write(id, maxRam, max, Ram, Word));
      if bus.LastOk() {
        status := 1;
      }
    }

    /**
     * `setMinMaxPositions`: refuses limits outside [0, 4095]; otherwise
     * issues exactly four word writes: min then max to ROM, min then max to
     * RAM.
     */
    method SetMinMaxPositions(id: int, min: int, max: int) returns (status: int)
      modifies bus
      ensures var n := |old(bus.log)|;
              if CheckId(id, DEFAULT_BROADCAST) && ValidPosition(min) && ValidPosition(max) then
                bus.log == old(bus.log)
                  + [Entry(Write(id, Addr(MinPosition, Rom), min, Rom, Word), bus.ok(n)),
                     Entry(Write(id, Addr(MaxPosition, Rom), max, Rom, Word), bus.ok(n + 1)),
                     Entry(Write(id, Addr(MinPosition, Ram), min, Ram, Word), bus.ok(n + 2)),
                     Entry(Write(id, Addr(MaxPosition, Ram), max, Ram, Word), bus.ok(n + 3))]
                && status == (if bus.ok(n) || bus.ok(n + 1) || bus.ok(n + 2) || bus.ok(n + 3) then 1 else 0)
              else
                status == 0 && bus.log == old(bus.log)
      ensures status == 1 <==> SomeWriteSucceeded(bus.log[|old(bus.log)|..])
    {
      status := 0;
      ghost var n := |bus.log|;
      if CheckId(id, DEFAULT_BROADCAST) {
        if min < 0 || min > 4095 || max < 0 || max > 4095 {
        } else {
          status := WriteLimits(id, min, max);
          FourWritesOutcome(bus.log[n..]);
        }
      }
    }

    /** `getTorqueEnabled`: the RAM torque byte, -1 after an error. */
    method GetTorqueEnabled(id: int) returns (value: int)
      modifies bus
      ensures var n := |old(bus.log)|;
              if CheckId(id, false) then
                bus.log == old(bus.log) + [Entry(Read(id, Addr(TorqueEnable, Ram), Ram, Byte), bus.ok(n))]
                && value == (if bus.ok(n) then bus.reply(n) else -1)
              else
                value == -1 && bus.log == old(bus.log)
    {
      value := -1;
      if CheckId(id, false) {
        value := bus.Request(Read(id, Addr(TorqueEnable, Ram), Ram, Byte));
        if !bus.LastOk() {
          value := -1;
        }
      }
    }

    /**
     * `setTorqueEnabled`: writes the normalised torque code to RAM, and
     * nothing for a code that is refused.
     */
    method SetTorqueEnabled(id: int, torque: int) returns (status: int)
      modifies bus
      ensures var n := |old(bus.log)|;
              if CheckId(id, DEFAULT_BROADCAST) && TorqueCode(torque).Some? then
                bus.log == old(bus.log)
                  + [Entry(Write(id, Addr(TorqueEnable, Ram), TorqueCode(torque).value, Ram, Byte), bus.ok(n))]
                && status == (if bus.ok(n) then 1 else 0)
              else
                status == 0 && bus.log == old(bus.log)
      ensures forall e :: e in bus.log[|old(bus.log)|..] ==>
                e.txn.Write? && (e.txn.value == 0x00 || e.txn.value == 0x40 || e.txn.value == 0x60)
    {
      status := 0;
      if CheckId(id, DEFAULT_BROADCAST) {
        var code := TorqueCode(torque);
        if code.Some? {
          bus.Send(Write(id, Addr(TorqueEnable, Ram), code.value, Ram, Byte));
          if bus.LastOk() {
            status := 1;
          }
        }
      }
    }

    /** `getLed`: the RAM LED byte, -1 after an error. */
    method GetLed(id: int) returns (value: int)
      modifies bus
      ensures var n := |old(bus.log)|;
              if CheckId(id, false) then
                bus.log == old(bus.log) + [Entry(Read(id, Addr(Led, Ram), Ram, Byte), bus.ok(n))]
                && value == (if bus.ok(n) then bus.reply(n) else -1)
              else
                value == -1 && bus.log == old(bus.log)
    {
      value := -1;
      if CheckId(id, false) {
        value := bus.Request(Read(id, Addr(Led, Ram), Ram, Byte));
        if !bus.LastOk() {
          value := -1;
        }
      }
    }

    /**
     * `setLed`: writes 0 when `led < 1`, otherwise the bitmask of `colors`,
     * to the RAM LED register when the table gives it an address.
     */
    method SetLed(id: int, led: int, colors: set<Color>) returns (status: int)
      modifies bus
      ensures var n := |old(bus.log)|;
              if CheckId(id, DEFAULT_BROADCAST) && Addr(Led, Ram) >= 0 then
                bus.log == old(bus.log)
                  + [Entry(Write(id, Addr(Led, Ram), LedValue(led, colors), Ram, Byte), bus.ok(n))]
                && status == (if bus.ok(n) then 1 else 0)
              else
                status == 0 && bus.log == old(bus.log)
      ensures forall e :: e in bus.log[|old(bus.log)|..] ==> e.txn.Write? && 0 <= e.txn.value <= 7
    {
      status := 0;
      if CheckId(id, DEFAULT_BROADCAST) {
        var value := LedValue(led, colors);
        var addr := Addr(Led, Ram);
        if addr >= 0 {
          bus.Send(Write(id, addr, value, Ram, Byte));
          if bus.LastOk() {
            status := 1;
          }
        }
      }
    }

    /** `turn`: jogs in speed mode (mode 1). */
    method Turn(id: int, velocity: int) returns (status: int)
      modifies bus
      ensures var n := |old(bus.log)|;
              if CheckId(id, DEFAULT_BROADCAST) then
                bus.log == old(bus.log) + [Entry(IJog(id, 1, velocity), bus.ok(n))]
                && status == (if bus.ok(n) then 1 else 0)
              else
                status == 0 && bus.log == old(bus.log)
    {
      status := 0;
      if CheckId(id, DEFAULT_BROADCAST) {
        bus.Send(IJog(id, 1, velocity));
        if bus.LastOk() {
          status := 1;
        }
      }
    }

    /**
     * `getGoalPosition`: a byte read of the RAM goal position, -1 after an
     * error (as written, the broadcast ID is accepted and one byte is read).
     */
    method GetGoalPosition(id: int) returns (value: int)
      modifies bus
      ensures var n := |old(bus.log)|;
              if CheckId(id, DEFAULT_BROADCAST) then
                bus.log == old(bus.log) + [Entry(Read(id, Addr(GoalPosition, Ram), Ram, Byte), bus.ok(n))]
                && value == (if bus.ok(n) then bus.reply(n) else -1)
              else
                value == -1 && bus.log == old(bus.log)
    {
      value := -1;
      if CheckId(id, DEFAULT_BROADCAST) {
        value := bus.Request(Read(id, Addr(GoalPosition, Ram), Ram, Byte));
        if !bus.LastOk() {
          value := -1;
        }
      }
    }

    /**
     * `setGoalPosition`: jogs in position mode (mode 0) to a position in
     * [0, 4095], and issues nothing for any other position.
     */
    method SetGoalPosition(id: int, position: int) returns (status: int)
      modifies bus
      ensures var n := |old(bus.log)|;
              if CheckId(id, DEFAULT_BROADCAST) && ValidPosition(position) then
                bus.log == old(bus.log) + [Entry(IJog(id, 0, position), bus.ok(n))]
                && status == (if bus.ok(n) then 1 else 0)
              else
                status == 0 && bus.log == old(bus.log)
    {
      status := 0;
      if CheckId(id, DEFAULT_BROADCAST) {
        if 0 <= position <= 4095 {
          bus.Send(IJog(id, 0, position));
          if bus.LastOk() {
            status := 1;
          }
        }
      }
    }

    /**
     * `setGoalPosition` with a speed: the speed is ignored, and the call
     * behaves exactly as `SetGoalPosition`.
     */
    method SetGoalPositionAtSpeed(id: int, position: int, speed: int) returns (status: int)
      modifies bus
      ensures var n := |old(bus.log)|;
              if CheckId(id, DEFAULT_BROADCAST) && ValidPosition(position) then
                bus.log == old(bus.log) + [Entry(IJog(id, 0, position), bus.ok(n))]
                && status == (if bus.ok(n) then 1 else 0)
              else
                status == 0 && bus.log == old(bus.log)
    {
      status := SetGoalPosition(id, position);
    }

    /**
     * `readCurrentPosition`, as written: it reads the byte at the RAM
     * address of the CURRENT TEMPERATURE register.
     */
    method ReadCurrentPosition(id: int) returns (value: int)
      modifies bus
      ensures var n := |old(bus.log)|;
              if CheckId(id, false) then
                bus.log == old(bus.log)
                  + [Entry(Read(id, Addr(CurrentTemperature, Ram), Ram, Byte), bus.ok(n))]
                && value == (if bus.ok(n) then bus.reply(n) else -1)
              else
                value == -1 && bus.log == old(bus.log)
    {
      value := -1;
      if CheckId(id, false) {
        value := bus.Request(Read(id, Addr(CurrentTemperature, Ram), Ram, Byte));
        if !bus.LastOk() {
          value := -1;
        }
      }
    }

    /** `readCurrentSpeed`: not implemented by the source; always -1. */
    method ReadCurrentSpeed(id: int) returns (value: int)
      ensures value == -1
    {
      value := -1;
    }

    /** `readCurrentLoad`: not implemented by the source; always -1. */
    method ReadCurrentLoad(id: int) returns (value: int)
      ensures value == -1
    {
      value := -1;
    }

    /**
     * `getSetting`: reads register `name` of the device's table (or of the
     * controller's own) from the bank `ReadBank` picks, byte or word by the
     * register's size. The result is -1 for an invalid ID, an unknown
     * register, no bank or size to read, or a failed read; the range check
     * discards a value only when min > max.
     */
    method GetSetting(id: int, name: Reg, regType: RegType, device: int) returns (value: int)
      modifies bus
      ensures var n := |old(bus.log)|;
              var info := Lookup(registry, TableFor(registry, device, ct), name);
              if !CheckId(id, false) || info.None? then
                value == -1 && bus.log == old(bus.log)
              else
                var b := ReadBank(regType, info.value);
                var w := WidthOf(info.value.size);
                if b.None? || w.None? then
                  value == -1 && bus.log == old(bus.log)
                else
                  bus.log == old(bus.log)
                    + [Entry(Read(id, AddrIn(info.value, b.value), b.value, w.value), bus.ok(n))]
                  && value == (if bus.ok(n) && KeepsReadValue(bus.reply(n), info.value)
                               then bus.reply(n) else -1)
      ensures value == -1
              || (|bus.log| == |old(bus.log)| + 1 && bus.log[|old(bus.log)|].ok
                  && value == bus.reply(|old(bus.log)|))
    {
      value := -1;
      if CheckId(id, false) {
        var table := TableFor(registry, device, ct);
        if table.Some? {
          var info := Lookup(registry, table, name);
          if info.Some? {
            var i := info.value;
            var b := ReadBank(regType, i);
            if b == Some(Rom) {
              if i.size == 1 {
                value := bus.Request(Read(id, i.romAddr, Rom, Byte));
              } else if i.size == 2 {
                value := bus.Request(Read(id, i.romAddr, Rom, Word));
              }
            } else if b == Some(Ram) {
              if i.size == 1 {
                value := bus.Request(Read(id, i.ramAddr, Ram, Byte));
              } else if i.size == 2 {
                value := bus.Request(Read(id, i.ramAddr, Ram, Word));
              }
            }
            if bus.LastOk() {
              if value < i.min && value > i.max {
                value := -1;
              }
            } else {
              value := -1;
            }
          }
        }
      }
    }

    /** One bank's write in `setSetting`: a byte or word write by size, nothing for another size. */
    method WriteSized(id: int, i: RegisterInfos, value: int, b: Bank)
      modifies bus
      ensures match WidthOf(i.size)
              case Some(w) =>
                bus.log == old(bus.log) + [Entry(Write(id, AddrIn(i, b), value, b, w), bus.ok(|old(bus.log)|))]
              case None => bus.log == old(bus.log)
    {
      if i.size == 1 {
        bus.Send(Write(id, AddrIn(i, b), value, b, Byte));
      } else if i.size == 2 {
        bus.Send(Write(id, AddrIn(i, b), value, b, Word));
      }
    }

    /**
     * The bank loop of `setSetting`: ROM first, then RAM, each when listed;
     * the status becomes 1 after any write whose transaction succeeded.
     */
    method WriteToBanks(id: int, i: RegisterInfos, value: int, banks: seq<Bank>) returns (status: int)
      requires banks == [] || banks == [Rom] || banks == [Ram] || banks == [Rom, Ram]
      modifies bus
      ensures var n := |old(bus.log)|;
              match WidthOf(i.size)
              case None =>
                bus.log == old(bus.log)
                && status == (if banks != [] && old(bus.LastOk()) then 1 else 0)
              case Some(w) =>
                |bus.log| == n + |banks| && bus.log[..n] == old(bus.log)
                && (forall j :: 0 <= j < |banks| ==>
                      bus.log[n + j] == Entry(Write(id, AddrIn(i, banks[j]), value, banks[j], w), bus.ok(n + j)))
                && (status == 1 <==> SomeWriteSucceeded(bus.log[n..]))
      ensures status == 0 || status == 1
    {
      status := 0;
      ghost var n := |bus.log|;
      if Rom in banks {
        WriteSized(id, i, value, Rom);
        if bus.LastOk() {
          status := 1;
        }
      }
      ghost var m := |bus.log|;
      if Ram in banks {
        WriteSized(id, i, value, Ram);
        if bus.LastOk() {
          status := 1;
        }
      }
      if WidthOf(i.size).Some? {
        if banks == [Rom, Ram] {
          assert bus.log[n..] == [] + [bus.log[n], bus.log[n + 1]];
          WritesOutcome(bus.log[n..], [], bus.log[n], bus.log[n + 1]);
        } else if banks != [] {
          SomeWriteSucceededOne(bus.log[n]);
          assert bus.log[n..] == [bus.log[n]];
        }
      }
    }

    /**
     * `setSetting`: writes `value` to register `name` only when the register
     * is READ_WRITE and `value` is within [min, max], to the banks
     * `WriteBanks` picks (ROM before RAM), byte or word by the register's
     * size. The status is 1 when some write succeeded; for a register whose
     * size is neither 1 nor 2 nothing is written and, as written, the status
     * repeats the outcome of the transaction before the call.
     */
    method SetSetting(id: int, name: Reg, value: int, regType: RegType, device: int) returns (status: int)
      modifies bus
      ensures var n := |old(bus.log)|;
              var info := Lookup(registry, TableFor(registry, device, ct), name);
              if !CheckId(id, DEFAULT_BROADCAST) || info.None? || info.value.access != ReadWrite
                 || !(info.value.min <= value <= info.value.max) then
                status == 0 && bus.log == old(bus.log)
              else
                var banks := WriteBanks(regType, info.value);
                var w := WidthOf(info.value.size);
                if w.None? then
                  bus.log == old(bus.log)
                  && status == (if banks != [] && old(bus.LastOk()) then 1 else 0)
                else
                  |bus.log| == n + |banks| && bus.log[..n] == old(bus.log)
                  && (forall j :: 0 <= j < |banks| ==>
                        bus.log[n + j] == Entry(Write(id, AddrIn(info.value, banks[j]), value, banks[j], w.value),
                                                bus.ok(n + j)))
                  && (status == 1 <==> SomeWriteSucceeded(bus.log[n..]))
      ensures status == 0 || status == 1
    {
      status := 0;
      ghost var n := |bus.log|;
      if CheckId(id, DEFAULT_BROADCAST) {
        var table := TableFor(registry, device, ct);
        if table.Some? {
          var info := Lookup(registry, table, name);
          if info.Some? {
            var i := info.value;
            if i.access == ReadWrite {
              if i.min <= value <= i.max {
                var banks := WriteBanks(regType, i);
                status := WriteToBanks(id, i, value, banks);
              }
            }
          }
        }
      }
    }
  }
}
