/**
 * Control tables: for each device family, the description of each register
 * (its ROM and RAM address, -1 meaning "not in this bank", its size, its
 * access mode and its range of valid values).
 *
 * The tables themselves, `getRegisterTable`, `getRegisterInfos` and
 * `getRegisterAddr` are not part of this model; a `Registry` value stands for
 * them, and the functions below are the lookups the simple API performs.
 */
module Registers {
  import opened Wrappers
  import opened Transport

  /** Register names the simple API uses by name; any other is `OtherReg`. */
  datatype Reg =
    | Id | BaudRate | MinPosition | MaxPosition | TorqueEnable | Led
    | GoalPosition | CurrentTemperature
    | OtherReg(code: int)

  datatype Access = ReadOnly | ReadWrite

  /** `RegisterInfos`: -1 as an address means the register is absent from that bank. */
  datatype RegisterInfos = RegisterInfos(
    romAddr: int, ramAddr: int, size: int, access: Access, min: int, max: int)

  /** The `reg_type` argument: a bank, or let the controller decide, or both banks. */
  datatype RegType = RegisterRom | RegisterRam | RegisterAuto | RegisterBoth

  /** The control tables a controller can be bound to. */
  datatype TableName =
    | DRS0101Table | DRS0x01Table | DRS0x02Table | PROTable | XL320Table | MXTable

  /**
   * `tables` gives each control table's contents; `deviceTables` gives the
   * table `getRegisterTable(device)` returns, a device code absent from it
   * meaning NULL.
   */
  datatype Registry = Registry(
    tables: map<TableName, map<Reg, RegisterInfos>>,
    deviceTables: map<int, TableName>)

  /** The table `getSetting`/`setSetting` use: the device's own, else the controller's `ct`. */
  function TableFor(registry: Registry, device: int, ct: Option<TableName>): (t: Option<TableName>)
    ensures device in registry.deviceTables ==> t == Some(registry.deviceTables[device])
    ensures device !in registry.deviceTables ==> t == ct
    ensures t.None? <==> device !in registry.deviceTables && ct.None?
  {
    if device in registry.deviceTables then Some(registry.deviceTables[device]) else ct
  }

  /** `getRegisterInfos`: the description of `name` in table `t`, if any. */
  function Lookup(registry: Registry, t: Option<TableName>, name: Reg): Option<RegisterInfos>
  {
    if t.Some? && t.value in registry.tables && name in registry.tables[t.value]
    then Some(registry.tables[t.value][name])
    else None
  }

  /** The address of a described register in bank `b`. */
  function AddrIn(i: RegisterInfos, b: Bank): int
  {
    if b == Rom then i.romAddr else i.ramAddr
  }

  /** `getRegisterAddr`: the address of `name` in bank `b`, -1 when it is not described. */
  function RegisterAddr(registry: Registry, t: Option<TableName>, name: Reg, b: Bank): (a: int)
    ensures Lookup(registry, t, name).None? ==> a == -1
  {
    match Lookup(registry, t, name)
    case Some(i) => AddrIn(i, b)
    case None => -1
  }

  /**
   * The bank `getSetting` reads. An explicit bank is honoured as given; AUTO
   * reads RAM when the register lives in both banks (a read cannot return
   * both values), otherwise the one bank it lives in; BOTH reads nothing.
   */
  function ReadBank(regType: RegType, i: RegisterInfos): (b: Option<Bank>)
    ensures regType == RegisterAuto && i.romAddr >= 0 && i.ramAddr >= 0 ==> b == Some(Ram)
    ensures regType == RegisterAuto && b.Some? ==> AddrIn(i, b.value) >= 0
    ensures b.None? <==> regType == RegisterBoth
                         || (regType == RegisterAuto && i.romAddr < 0 && i.ramAddr < 0)
    ensures regType == RegisterRom ==> b == Some(Rom)
    ensures regType == RegisterRam ==> b == Some(Ram)
  {
    match regType
    case RegisterRom => Some(Rom)
    case RegisterRam => Some(Ram)
    case RegisterBoth => None
    case RegisterAuto =>
      if i.romAddr >= 0 && i.ramAddr >= 0 then Some(Ram)
      else if i.romAddr >= 0 then Some(Rom)
      else if i.ramAddr >= 0 then Some(Ram)
      else None
  }

  /**
   * The banks `setSetting` writes, in order. Each bank is written at most
   * once and ROM always before RAM; AUTO writes exactly the banks the
   * register lives in.
   */
  function WriteBanks(regType: RegType, i: RegisterInfos): (bs: seq<Bank>)
    ensures bs == [] || bs == [Rom] || bs == [Ram] || bs == [Rom, Ram]
    ensures regType == RegisterAuto ==> forall b: Bank :: b in bs <==> AddrIn(i, b) >= 0
    ensures regType == RegisterBoth ==> bs == [Rom, Ram]
    ensures regType == RegisterRom ==> bs == [Rom]
    ensures regType == RegisterRam ==> bs == [Ram]
  {
    var rt :=
      if regType != RegisterAuto then regType
      else if i.romAddr >= 0 && i.ramAddr >= 0 then RegisterBoth
      else if i.romAddr >= 0 then RegisterRom
      else if i.ramAddr >= 0 then RegisterRam
      else RegisterAuto;
    (if rt == RegisterRom || rt == RegisterBoth then [Rom] else [])
      + (if rt == RegisterRam || rt == RegisterBoth then [Ram] else [])
  }

  /**
   * Under AUTO, the bank a read consults is one that a write updates, and a
   * read finds no bank exactly when a write finds none.
   */
  lemma AutoReadsWhatAutoWrites(i: RegisterInfos)
    ensures ReadBank(RegisterAuto, i).Some? <==> WriteBanks(RegisterAuto, i) != []
    ensures ReadBank(RegisterAuto, i).Some?
            ==> ReadBank(RegisterAuto, i).value in WriteBanks(RegisterAuto, i)
  {
  }

  /**
   * The range check `getSetting` applies to a value it has read, as written:
   * a value is discarded only when it is below `min` AND above `max`, which
   * never happens when `min <= max`.
   */
  predicate KeepsReadValue(v: int, i: RegisterInfos)
    ensures i.min <= i.max ==> KeepsReadValue(v, i)
    ensures !KeepsReadValue(v, i) ==> i.max < v < i.min
  {
    !(v < i.min && v > i.max)
  }
}
