/**
 * Device families and the profile a controller takes from its family: the
 * ack policy, the highest unicast ID, the protocol version and the control
 * table.
 */
module Profiles {
  import opened Wrappers
  import opened Registers

  /**
   * The servo series. The numeric codes are defined in a header that is not
   * part of this model; what the controller relies on is their order, which
   * `Rank` gives: the unknown series first, then the Dynamixel series (MX
   * and older, then XL, then PRO), then the HerkuleX series.
   */
  datatype Family =
    | Unknown
    | Dynamixel | AX | EX | DX | RX | MX
    | XL | XL320
    | PRO
    | HerkuleX | DRS | DRS0101 | DRS0201 | DRS0401 | DRS0601 | DRS0402 | DRS0602

  function Rank(f: Family): nat
  {
    match f
    case Unknown => 0
    case Dynamixel => 1
    case AX => 2
    case EX => 3
    case DX => 4
    case RX => 5
    case MX => 6
    case XL => 7
    case XL320 => 8
    case PRO => 9
    case HerkuleX => 10
    case DRS => 11
    case DRS0101 => 12
    case DRS0201 => 13
    case DRS0401 => 14
    case DRS0601 => 15
    case DRS0402 => 16
    case DRS0602 => 17
  }

  predicate IsHerkuleX(f: Family) { Rank(f) >= Rank(HerkuleX) }

  predicate IsDynamixel(f: Family) { f != Unknown && !IsHerkuleX(f) }

  /** The reserved broadcast ID (0xFE). */
  const BROADCAST_ID: int := 254

  datatype Profile = Profile(ackPolicy: int, maxId: int, protocolVersion: int, table: Option<TableName>)

  /**
   * `checkId`: an ID is accepted when it is a unicast ID in [0, maxId], or
   * when it is the broadcast ID and the instruction permits broadcast.
   */
  function IdAccepted(maxId: int, id: int, broadcast: bool): (accepted: bool)
    ensures 0 <= id <= maxId ==> accepted
    ensures id == BROADCAST_ID && broadcast ==> accepted
    ensures accepted && id != BROADCAST_ID ==> 0 <= id <= maxId
    ensures accepted && !broadcast ==> 0 <= id <= maxId
  {
    (0 <= id <= maxId) || (id == BROADCAST_ID && broadcast)
  }

  /**
   * The profile the controller ends up with for a declared series. An
   * unknown series leaves the fields at their initial values (`initial`).
   * Every HerkuleX series gets the DRS-0101 table (the series is replaced by
   * the generic DRS before the model is looked at); the PRO and XL series
   * speak protocol 2 with IDs up to 252; MX and older speak protocol 1 with
   * IDs up to 253, or 252 behind a USB2AX adapter, which takes 253 itself.
   */
  function SelectProfile(serie: Family, usb2ax: bool, initial: Profile): (p: Profile)
    ensures serie == Unknown ==> p == initial
    ensures serie != Unknown ==> (p.maxId == 252 || p.maxId == 253)
                                 && (p.protocolVersion == 1 || p.protocolVersion == 2)
                                 && p.table.Some?
    ensures IsHerkuleX(serie) ==> p.ackPolicy == 1 && p.protocolVersion == 1 && p.maxId == 253
    ensures IsDynamixel(serie) ==> p.ackPolicy == 2
    ensures IsDynamixel(serie) ==> (p.protocolVersion == 2 <==> Rank(serie) >= Rank(XL))
    ensures IsDynamixel(serie) ==> (p.maxId == 253 <==> Rank(serie) < Rank(XL) && !usb2ax)
  {
    if serie == Unknown then initial
    else if IsHerkuleX(serie) then Profile(1, 253, 1, Some(DRS0101Table))
    else if Rank(serie) >= Rank(PRO) then Profile(2, 252, 2, Some(PROTable))
    else if Rank(serie) >= Rank(XL) then Profile(2, 252, 2, Some(XL320Table))
    else Profile(2, if usb2ax then 252 else 253, 1, Some(MXTable))
  }

  /**
   * As written, the HerkuleX model declared makes no difference: every
   * HerkuleX series, DRS-0402 and DRS-0602 included, gets the same profile
   * and the DRS-0101 table.
   */
  lemma HerkuleXSeriesShareProfile(f: Family, g: Family, usb2ax: bool, initial: Profile)
    requires IsHerkuleX(f) && IsHerkuleX(g)
    ensures SelectProfile(f, usb2ax, initial) == SelectProfile(g, usb2ax, initial)
    ensures SelectProfile(f, usb2ax, initial).table == Some(DRS0101Table)
  {
  }

  /**
   * For every declared series, the broadcast ID lies outside the unicast
   * range, so `checkId` accepts it exactly when broadcast is permitted, and
   * every accepted ID is a bus address in [0, 254].
   */
  lemma BroadcastOnlyWhenPermitted(serie: Family, usb2ax: bool, initial: Profile, id: int, broadcast: bool)
    requires serie != Unknown
    ensures var p := SelectProfile(serie, usb2ax, initial);
            (IdAccepted(p.maxId, BROADCAST_ID, broadcast) <==> broadcast)
            && (IdAccepted(p.maxId, id, broadcast) ==> 0 <= id <= BROADCAST_ID)
            && (IdAccepted(p.maxId, id, false) ==> id != BROADCAST_ID)
  {
  }
}
