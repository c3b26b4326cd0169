# HerkuleX simple API — a verified model

This project models the controller layer of SmartServoFramework's
`HerkuleXSimpleAPI` in Dafny. A controller is bound to one servo series and
takes its profile from it:

- the ack policy;
- the highest unicast ID (`maxId`);
- the protocol version;
- the control table.

Each request is checked against the profile and the register's description.
It becomes an ordered sequence of bus transactions (ping, byte or word
read/write to ROM or RAM, I_JOG, reboot, reset), and the outcome of those
transactions gives the integer status the API returns.

Modules:

- `Transport` is the bus. `Bus` is a class with a log of transactions and
  their outcomes. An oracle fixed when the bus is built says whether the k-th
  transaction succeeds and what a read returns. `LastOk()`, the status of the
  last transaction, stands for what `hkx_print_error()` and
  `hkx_get_com_status()` report (see the assumptions below).
- `Registers` is the control tables as an abstract `Registry` (table contents
  and the device-to-table mapping). It also holds the bank choices of
  `getSetting` (`ReadBank`) and `setSetting` (`WriteBanks`).
- `Profiles` is the ordered series enumeration, `checkId` (`IdAccepted`) and
  the constructor's series-to-profile mapping (`SelectProfile`).
- `Values` holds the LED bitmask, the torque codes and the position and baud
  ranges.
- `Scan` specifies `servoScan` as a function of the bus oracle (`ScanFrom`).
  It proves that the scan pings each ID of its range once, in order, and
  reports exactly the IDs that answered, in increasing order.
- `SimpleApi` is the controller class. Each method's contract states the exact
  transactions appended to the log and the value returned.

Behaviour reproduced as the source writes it:

- **Constructor.** The constructor replaces the series with the generic DRS
  before it looks at the DRS model. Every HerkuleX series therefore gets the
  DRS-0101 table (`HerkuleXSeriesShareProfile`).
- **getSetting range check.** The check discards a value only when it is below
  `min` *and* above `max`. That can only happen when `min > max`
  (`KeepsReadValue`).
- **readCurrentPosition.** It reads the RAM byte at the CURRENT TEMPERATURE
  register's address.
- **getGoalPosition.** It accepts the broadcast ID and reads a single byte.
- **Two-bank writes.** A write to two banks (changeId, changeBaudRate,
  setMinMaxPositions, setSetting) reports 1 as soon as either write succeeded.
- **setSetting with odd sizes.** For a register whose size is neither 1 nor 2,
  setSetting writes nothing. Its status then repeats the outcome of the
  transaction before the call.

Assumptions where the code relies on headers that are not part of this model:

- `checkId`'s `broadcast` argument defaults to true (`DEFAULT_BROADCAST`).
- The series codes are ordered unknown < Dynamixel series (MX and older, then
  XL, then PRO) < HerkuleX series.
- The fields keep their initial values (`initial`) when the series is
  unknown.
- `hkx_print_error() == 0` and `hkx_get_com_status() == COMM_RXSUCCESS` both
  report the outcome of the last transaction issued (`Bus.LastOk()`). Neither
  function is part of this model. This matters only where a status is read
  after no transaction was issued: `getSetting` with no bank or size to read,
  and `setSetting` with a size other than 1 or 2, which then see the outcome
  of the transaction before the call.
- `usb2ax` is whether the member `serialDevice` holds SERIAL_USB2AX *when the
  constructor runs*. The constructor reads that member (line 84), but only
  `connect` assigns it (line 118), and `connect` runs after construction and
  never recomputes `maxId`. So connecting later through a USB2AX adapter does
  not lower an MX controller's `maxId` to 252. The model fixes `maxId` at
  construction in the same way.
- The LED `color` argument is the set of colour flags it holds.
- `getRegisterAddr` gives -1 for a register the table does not describe.

## Model

| member | source | states |
|---|---|---|
| Profiles.SelectProfile | src/HerkuleXSimpleAPI.cpp:33-109 | An unknown series keeps the initial profile. A HerkuleX series gets ack policy 1, protocol 1 and maxId 253. A Dynamixel series gets ack policy 2. It speaks protocol 2 exactly when it is XL or later, and its maxId is 253 exactly when it is older than XL and not behind a USB2AX (252 otherwise). |
| SimpleApi.HerkuleXSimpleApi.constructor | src/HerkuleXSimpleAPI.cpp:33-109 | The fields set step by step, with the series overwritten before the model tests, end up equal to `SelectProfile` of the declared series. |
| Profiles.HerkuleXSeriesShareProfile | src/HerkuleXSimpleAPI.cpp:37-56 | As written, any two HerkuleX series (DRS-0402/0602 included) get the same profile, with the DRS-0101 table. |
| Profiles.IdAccepted | src/HerkuleXSimpleAPI.cpp:127-149 | Every ID in [0, maxId] is accepted, and so is the broadcast ID 254 when broadcast is permitted. An accepted ID other than 254 is in [0, maxId], and without broadcast every accepted ID is in [0, maxId]. |
| SimpleApi.HerkuleXSimpleApi.CheckId | src/HerkuleXSimpleAPI.cpp:127-149 | The controller's check is `IdAccepted` under its current maxId. Without broadcast it accepts only IDs in [0, maxId]. |
| Profiles.BroadcastOnlyWhenPermitted | src/HerkuleXSimpleAPI.cpp:127-149 | For every known series, `checkId` accepts the broadcast ID exactly when broadcast is permitted. It never accepts it when broadcast is refused, and every accepted ID is in [0, 254]. |
| Scan.ScanStart | src/HerkuleXSimpleAPI.cpp:154-155 | The first ID scanned is `start` when it is in [0, maxId - 1], and exactly 0 otherwise. It is never negative. |
| Scan.ScanStop | src/HerkuleXSimpleAPI.cpp:157-158 | The last ID scanned equals `stop` when `stop` is in [1, maxId] and not below the corrected start, and exactly maxId otherwise. It is never above maxId, and not below the corrected start when maxId >= 1. |
| SimpleApi.HerkuleXSimpleApi.Probe | src/HerkuleXSimpleAPI.cpp:169-190 | Scanning one ID appends its ping. When the ping succeeded, it also appends the LED green-on then off writes. It reports whether the ping succeeded. |
| SimpleApi.HerkuleXSimpleApi.ScanRange | src/HerkuleXSimpleAPI.cpp:165-198 | The loop's IDs and transactions are exactly `ScanFrom` of the range under the bus oracle. |
| SimpleApi.HerkuleXSimpleApi.ServoScan | src/HerkuleXSimpleAPI.cpp:151-199 | The scan covers the corrected range, and its result and log are `ScanFrom`. The IDs returned are strictly increasing and within the range. An ID of the range is returned exactly when its ping succeeded. |
| Scan.ScanPingsEachIdOnce | src/HerkuleXSimpleAPI.cpp:167-172 | The pings of a scan are exactly the IDs start, start+1, ..., stop, in that order, each once. |
| Scan.ScanIdsIncreasing | src/HerkuleXSimpleAPI.cpp:167-176 | The IDs a scan reports are strictly increasing and lie in its range. |
| Scan.ScanIssuesOnlyPingsAndBlinks | src/HerkuleXSimpleAPI.cpp:167-190 | Every transaction of a scan is a ping of an ID in its range, or a RAM write to the LED register of an ID the scan reports. |
| Scan.ScanFindsExactlyResponders | src/HerkuleXSimpleAPI.cpp:167-176 | An ID in the range is reported exactly when a successful ping of it is in the scan's log. |
| Scan.ScanProperties | src/HerkuleXSimpleAPI.cpp:151-199 | Combines the above: sorted IDs in range, reported exactly when they answered. |
| SimpleApi.HerkuleXSimpleApi.Ping | src/HerkuleXSimpleAPI.cpp:201-204 | Pings any ID without checking it, and reports the ping's outcome. |
| SimpleApi.HerkuleXSimpleApi.Reboot | src/HerkuleXSimpleAPI.cpp:206-212 | Issues one reboot when the ID passes `checkId`, and nothing otherwise. |
| SimpleApi.HerkuleXSimpleApi.Reset | src/HerkuleXSimpleAPI.cpp:214-220 | Issues one reset with the given setting when the ID passes `checkId`, and nothing otherwise. |
| SimpleApi.HerkuleXSimpleApi.ChangeId | src/HerkuleXSimpleAPI.cpp:258-299 | Issues nothing and returns 0 when the old ID fails `checkId` without broadcast, or when the new ID is outside [0, maxId]. It returns 0 after a ping alone when the new ID answers. Otherwise it writes the new ID to ROM then RAM. The status is 1 exactly when some write succeeded. |
| SimpleApi.HerkuleXSimpleApi.ChangeBaudRate | src/HerkuleXSimpleAPI.cpp:301-331 | Issues nothing and returns 0 for a rejected ID or a baud number outside [0, 34]. Otherwise it writes ROM then RAM. The status is 1 exactly when either write succeeded. |
| Values.PositionOrInvalid | src/HerkuleXSimpleAPI.cpp:340-366 | A limit read back is -1, or a position in [0, 4095]. It is the value read exactly when the read succeeded and the value is a position. |
| SimpleApi.HerkuleXSimpleApi.GetMinMaxPositions | src/HerkuleXSimpleAPI.cpp:333-368 | With a valid ID, it reads both limits as RAM words, min first. Each output is -1 or in [0, 4095]. With an invalid ID, nothing is read and the outputs are unchanged. |
| SimpleApi.HerkuleXSimpleApi.WriteLimits | src/HerkuleXSimpleAPI.cpp:383-421 | Exactly four word writes, min-ROM, max-ROM, min-RAM, max-RAM. Status 1 when any succeeded. |
| SimpleApi.HerkuleXSimpleApi.SetMinMaxPositions | src/HerkuleXSimpleAPI.cpp:370-426 | Issues nothing when the ID is rejected or a limit is outside [0, 4095]. Otherwise it issues the four writes. The status is 1 exactly when some write succeeded. |
| SimpleApi.HerkuleXSimpleApi.GetTorqueEnabled | src/HerkuleXSimpleAPI.cpp:428-444 | A RAM byte read of the torque register. The value read, or -1 after an error or for a rejected ID. |
| Values.TorqueCode | src/HerkuleXSimpleAPI.cpp:452-466 | 1 becomes 0x60. 0x00, 0x40 and 0x60 are kept, and every other code is refused. Only 0x00, 0x40 and 0x60 are ever produced. |
| SimpleApi.HerkuleXSimpleApi.SetTorqueEnabled | src/HerkuleXSimpleAPI.cpp:446-475 | Writes the normalised code to RAM when it is accepted, and nothing otherwise. Every value written is 0x00, 0x40 or 0x60. |
| SimpleApi.HerkuleXSimpleApi.GetLed | src/HerkuleXSimpleAPI.cpp:477-493 | A RAM byte read of the LED register. The value read, or -1 after an error or for a rejected ID. |
| Values.LedValue | src/HerkuleXSimpleAPI.cpp:501-516 | The LED value is in [0, 7], and 0 when `led < 1`. |
| Values.LedValueRoundTrip | src/HerkuleXSimpleAPI.cpp:501-516 | For `led >= 1`, decoding the value's bits (green 1, blue 2, red 4) gives back exactly the colours requested. |
| SimpleApi.HerkuleXSimpleApi.SetLed | src/HerkuleXSimpleAPI.cpp:495-533 | Writes the LED value to RAM when the table gives the register an address, and nothing otherwise. Every value written is in [0, 7]. |
| SimpleApi.HerkuleXSimpleApi.Turn | src/HerkuleXSimpleAPI.cpp:535-549 | One I_JOG in speed mode (1) with the velocity. Status 1 when it succeeded. |
| SimpleApi.HerkuleXSimpleApi.GetGoalPosition | src/HerkuleXSimpleAPI.cpp:551-567 | A RAM byte read of the goal position, with broadcast allowed. The value read, or -1. |
| SimpleApi.HerkuleXSimpleApi.SetGoalPosition | src/HerkuleXSimpleAPI.cpp:569-591 | One I_JOG in position mode (0), only for positions in [0, 4095]. Nothing is issued for others. |
| SimpleApi.HerkuleXSimpleApi.SetGoalPositionAtSpeed | src/HerkuleXSimpleAPI.cpp:593-617 | The same transactions and status as `SetGoalPosition`. The speed is ignored. |
| SimpleApi.HerkuleXSimpleApi.ReadCurrentPosition | src/HerkuleXSimpleAPI.cpp:619-635 | As written, a RAM byte read at the CURRENT TEMPERATURE register's address. The value read, or -1. |
| SimpleApi.HerkuleXSimpleApi.ReadCurrentSpeed | src/HerkuleXSimpleAPI.cpp:637-647 | Always -1, with no transaction. |
| SimpleApi.HerkuleXSimpleApi.ReadCurrentLoad | src/HerkuleXSimpleAPI.cpp:649-659 | Always -1, with no transaction. |
| Registers.TableFor | src/HerkuleXSimpleAPI.cpp:713-719 | The table used is the device's own when `getRegisterTable` knows the device, and the controller's table otherwise. There is no table exactly when the device is unknown and the controller has none. |
| Registers.ReadBank | src/HerkuleXSimpleAPI.cpp:727-760 | An explicit bank is honoured. AUTO reads RAM when both addresses exist, and otherwise only a bank the register lives in. Nothing is read for BOTH, or for AUTO with no address. |
| Transport.WidthOf | src/HerkuleXSimpleAPI.cpp:741-759 | Size 1 is a byte access and size 2 a word access. No access for any other size. |
| Registers.KeepsReadValue | src/HerkuleXSimpleAPI.cpp:762-774 | As written, a value read is kept whenever min <= max. It is discarded only when max < value < min. |
| SimpleApi.HerkuleXSimpleApi.GetSetting | src/HerkuleXSimpleAPI.cpp:706-792 | Returns -1 with no transaction when the ID is rejected (no broadcast), the register is undescribed, or there is no bank or size to read. Otherwise it issues one read of the chosen bank and width. It returns the value read when the read succeeded and the range check keeps it, and -1 otherwise. |
| Registers.WriteBanks | src/HerkuleXSimpleAPI.cpp:821-869 | ROM is written before RAM, and each bank at most once. AUTO writes exactly the banks the register lives in, BOTH writes ROM then RAM, and an explicit bank writes only that bank. |
| Registers.AutoReadsWhatAutoWrites | src/HerkuleXSimpleAPI.cpp:722-830 | Under AUTO, a read finds a bank exactly when a write finds one, and the bank read is one the write updates. |
| SimpleApi.HerkuleXSimpleApi.WriteSized | src/HerkuleXSimpleAPI.cpp:836-843 | A byte write for size 1 and a word write for size 2, to the given bank's address. Nothing for any other size. |
| SimpleApi.HerkuleXSimpleApi.WriteToBanks | src/HerkuleXSimpleAPI.cpp:832-869 | One write per listed bank, in order. The status is 1 exactly when some write succeeded. With no width, there are no writes and the status repeats the previous transaction's outcome. |
| SimpleApi.HerkuleXSimpleApi.SetSetting | src/HerkuleXSimpleAPI.cpp:794-898 | Nothing is written and the status is 0 unless the ID passes `checkId`, the register is described, READ_WRITE, and the value is in [min, max]. Otherwise it writes the `WriteBanks` banks with the size's width. The status is 1 exactly when some write succeeded. For an odd size it issues nothing and repeats the previous status. |

## Left out

- The packet codec (`hkx_*` encoding, checksums, replies) and the control-table
  contents are not part of this model. The bus outcome and read values are an
  oracle, and the tables are an abstract `Registry`.
- `connect`, `disconnect` and the destructor are left out: they open and
  close the serial port, which is I/O.
- `readModelNumber` and `readFirmwareVersion` are left out. They use the
  default bank argument of `getRegisterAddr`, which is declared in a header
  that is not part of this model.
- `readCurrentTemperature` and `readCurrentVoltage` are left out: they scale
  the reading with floating point.
- Trace and console output is left out, and so are the diagnostic reads inside
  `servoScan`'s level-1 trace lines (lines 182-187), which the source marks as
  not printed by default. The trace macros' definitions are not part of this
  model. `ServoScan`'s exact-log contract assumes those lines are disabled.
  When they are enabled, every servo found also triggers the reads of
  `readCurrentPosition`, `getTorqueEnabled` and `getSetting` (lines 183-187),
  which the model does not record.
- `SerialPortWindows.cpp` (Win32 serial I/O) and the Qt about dialog are not
  part of this model.
- Integer widths: IDs, addresses and values are unbounded integers. The source's
  `int` values stay far from overflow in every comparison the model makes.
