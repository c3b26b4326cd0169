/**
 * The bus scan: the range it covers and the transactions it issues, as a
 * function of the bus oracle, with the properties the scan promises.
 */
module Scan {
  import opened Transport
  import opened Values

  /** The first ID scanned: `start`, or 0 when `start` is not in [0, maxId - 1]. */
  function ScanStart(maxId: int, start: int): (s: int)
    ensures 0 <= s
    ensures maxId >= 1 ==> s < maxId
    ensures 0 <= start < maxId ==> s == start
    ensures !(0 <= start < maxId) ==> s == 0
  {
    if start < 0 || start > maxId - 1 then 0 else start
  }

  /**
   * The last ID scanned: `stop`, or `maxId` when `stop` is below 1, above
   * `maxId` or below the (already corrected) first ID.
   */
  function ScanStop(maxId: int, start: int, stop: int): (e: int)
    ensures e <= maxId
    ensures maxId >= 1 ==> ScanStart(maxId, start) <= e
    ensures 1 <= stop <= maxId && ScanStart(maxId, start) <= stop ==> e == stop
    ensures !(1 <= stop <= maxId && ScanStart(maxId, start) <= stop) ==> e == maxId
  {
    var s := ScanStart(maxId, start);
    if stop < 1 || stop > maxId || stop < s then maxId else stop
  }

  /** The IDs found and the transactions issued by a scan. */
  datatype ScanTrace = ScanTrace(ids: seq<int>, entries: seq<Entry>)

  /**
   * A servo that answers is made to blink: `setLed(id, 1, LED_GREEN)` then
   * `setLed(id, 0)`, each a RAM byte write to the LED register when the
   * table gives it an address, issued from transaction number `k` on.
   */
  function Blink(ok: nat -> bool, ledAddr: int, id: int, k: nat): (es: seq<Entry>)
  {
    if ledAddr >= 0 then
      [Entry(Write(id, ledAddr, LedValue(1, {Green}), Ram, Byte), ok(k)),
       Entry(Write(id, ledAddr, LedValue(0, {Green}), Ram, Byte), ok(k + 1))]
    else []
  }

  /**
   * The transactions of probing `id` from transaction number `k` on: a
   * ping, then a blink when the servo answered.
   */
  function Probed(ok: nat -> bool, ledAddr: int, id: int, k: nat): (es: seq<Entry>)
  {
    [Entry(Ping(id), ok(k))] + (if ok(k) then Blink(ok, ledAddr, id, k + 1) else [])
  }

  /** Scanning IDs `id` to `stop`, the first ping being transaction number `k`. */
  function ScanFrom(ok: nat -> bool, ledAddr: int, id: int, stop: int, k: nat): (r: ScanTrace)
    decreases stop - id
  {
    if id > stop then ScanTrace([], [])
    else
      var p := Probed(ok, ledAddr, id, k);
      var rest := ScanFrom(ok, ledAddr, id + 1, stop, k + |p|);
      ScanTrace((if ok(k) then [id] else []) + rest.ids, p + rest.entries)
  }

  /**
   * Scanning `id` moves its probe and (when it answered) the ID itself from
   * what remains to be scanned onto what is done.
   */
  lemma ScanAdvance(ok: nat -> bool, ledAddr: int, id: int, stop: int, k: nat,
                    ids: seq<int>, done: seq<Entry>, whole: ScanTrace)
    requires id <= stop
    requires ids + ScanFrom(ok, ledAddr, id, stop, k).ids == whole.ids
    requires done + ScanFrom(ok, ledAddr, id, stop, k).entries == whole.entries
    ensures var p := Probed(ok, ledAddr, id, k);
            var next := ScanFrom(ok, ledAddr, id + 1, stop, k + |p|);
            (ids + (if ok(k) then [id] else [])) + next.ids == whole.ids
            && (done + p) + next.entries == whole.entries
  {
    var p := Probed(ok, ledAddr, id, k);
    var next := ScanFrom(ok, ledAddr, id + 1, stop, k + |p|);
    var pre := if ok(k) then [id] else [];
    assert ScanFrom(ok, ledAddr, id, stop, k) == ScanTrace(pre + next.ids, p + next.entries);
    assert (ids + pre) + next.ids == ids + (pre + next.ids);
    assert (done + p) + next.entries == done + (p + next.entries);
  }

  /** The IDs pinged by `es`, in order. */
  function PingedIds(es: seq<Entry>): seq<int>
  {
    if es == [] then []
    else (if es[0].txn.Ping? then [es[0].txn.id] else []) + PingedIds(es[1..])
  }

  /** The IDs `lo`, `lo + 1`, ..., `hi`. */
  function Interval(lo: int, hi: int): seq<int>
    decreases hi - lo
  {
    if lo > hi then [] else [lo] + Interval(lo + 1, hi)
  }

  lemma {:induction false} PingedIdsAppend(a: seq<Entry>, b: seq<Entry>)
    ensures PingedIds(a + b) == PingedIds(a) + PingedIds(b)
  {
    if a == [] {
      assert a + b == b;
    } else {
      var head := if a[0].txn.Ping? then [a[0].txn.id] else [];
      assert (a + b)[0] == a[0];
      assert (a + b)[1..] == a[1..] + b;
      assert PingedIds(a + b) == head + PingedIds(a[1..] + b);
      PingedIdsAppend(a[1..], b);
      assert head + (PingedIds(a[1..]) + PingedIds(b)) == (head + PingedIds(a[1..])) + PingedIds(b);
    }
  }

  /** A probe pings its ID once and nothing else. */
  lemma ProbedPingsOnce(ok: nat -> bool, ledAddr: int, id: int, k: nat)
    ensures PingedIds(Probed(ok, ledAddr, id, k)) == [id]
  {
    var es := Probed(ok, ledAddr, id, k);
    if |es| == 3 {
      assert es[1..][1..][1..] == [];
      assert PingedIds(es[1..][1..]) == [];
      assert PingedIds(es[1..]) == [];
    } else {
      assert es[1..] == [];
    }
  }

  /** A probe holds its ping and, when the servo answered, LED writes to that servo in RAM. */
  lemma ProbedShape(ok: nat -> bool, ledAddr: int, id: int, k: nat)
    ensures var p := Probed(ok, ledAddr, id, k);
            forall e :: e in p ==>
              (e.txn.Ping? && e.txn.id == id)
              || (ok(k) && e.txn.Write? && e.txn.id == id && e.txn.addr == ledAddr && e.txn.bank == Ram)
  {
  }

  /** A probe records an answer from `x` exactly when `x` is its ID and the servo answered. */
  lemma ProbedAnswer(ok: nat -> bool, ledAddr: int, id: int, k: nat, x: int)
    ensures Entry(Ping(x), true) in Probed(ok, ledAddr, id, k) <==> x == id && ok(k)
  {
  }

  /** A scan from `id` on records no answer from an ID below `id`. */
  lemma {:induction false} ScanAnswersFrom(ok: nat -> bool, ledAddr: int, id: int, stop: int, k: nat, x: int)
    requires x < id
    ensures Entry(Ping(x), true) !in ScanFrom(ok, ledAddr, id, stop, k).entries
    decreases stop - id
  {
    if id <= stop {
      var p := Probed(ok, ledAddr, id, k);
      var rest := ScanFrom(ok, ledAddr, id + 1, stop, k + |p|);
      assert ScanFrom(ok, ledAddr, id, stop, k).entries == p + rest.entries;
      ProbedAnswer(ok, ledAddr, id, k, x);
      ScanAnswersFrom(ok, ledAddr, id + 1, stop, k + |p|, x);
    }
  }

  /** A scan pings every ID of its range exactly once, in increasing order. */
  lemma {:induction false} ScanPingsEachIdOnce(ok: nat -> bool, ledAddr: int, id: int, stop: int, k: nat)
    ensures PingedIds(ScanFrom(ok, ledAddr, id, stop, k).entries) == Interval(id, stop)
    decreases stop - id
  {
    if id <= stop {
      var p := Probed(ok, ledAddr, id, k);
      var rest := ScanFrom(ok, ledAddr, id + 1, stop, k + |p|);
      assert ScanFrom(ok, ledAddr, id, stop, k).entries == p + rest.entries;
      ScanPingsEachIdOnce(ok, ledAddr, id + 1, stop, k + |p|);
      ProbedPingsOnce(ok, ledAddr, id, k);
      PingedIdsAppend(p, rest.entries);
    }
  }

  /** `ids` is strictly increasing. */
  predicate Increasing(ids: seq<int>)
  {
    forall i, j :: 0 <= i < j < |ids| ==> ids[i] < ids[j]
  }

  /** Every element of `ids` lies in [lo, hi]. */
  predicate Within(ids: seq<int>, lo: int, hi: int)
  {
    forall i :: 0 <= i < |ids| ==> lo <= ids[i] <= hi
  }

  lemma PrependIncreasing(pre: seq<int>, id: int, rest: seq<int>, stop: int)
    requires pre == [] || pre == [id]
    requires Increasing(rest) && Within(rest, id + 1, stop) && id <= stop
    ensures Increasing(pre + rest) && Within(pre + rest, id, stop)
  {
    var ids := pre + rest;
    forall i | 0 <= i < |ids|
      ensures id <= ids[i] <= stop
    {
      if i >= |pre| { assert ids[i] == rest[i - |pre|]; }
    }
    forall i, j | 0 <= i < j < |ids|
      ensures ids[i] < ids[j]
    {
      assert ids[j] == rest[j - |pre|];
      if i >= |pre| { assert ids[i] == rest[i - |pre|]; }
    }
  }

  /** The IDs a scan reports are strictly increasing and lie in its range. */
  lemma {:induction false} ScanIdsIncreasing(ok: nat -> bool, ledAddr: int, id: int, stop: int, k: nat)
    ensures Increasing(ScanFrom(ok, ledAddr, id, stop, k).ids)
    ensures Within(ScanFrom(ok, ledAddr, id, stop, k).ids, id, stop)
    decreases stop - id
  {
    if id <= stop {
      var p := Probed(ok, ledAddr, id, k);
      var rest := ScanFrom(ok, ledAddr, id + 1, stop, k + |p|);
      var pre := if ok(k) then [id] else [];
      assert ScanFrom(ok, ledAddr, id, stop, k).ids == pre + rest.ids;
      ScanIdsIncreasing(ok, ledAddr, id + 1, stop, k + |p|);
      PrependIncreasing(pre, id, rest.ids, stop);
    }
  }

  /**
   * One transaction of a scan is a ping of an ID of its range or a write to
   * the LED register (in RAM) of a servo it reports as found.
   */
  lemma {:induction false} ScanEntryShape(ok: nat -> bool, ledAddr: int, id: int, stop: int, k: nat, e: Entry)
    requires e in ScanFrom(ok, ledAddr, id, stop, k).entries
    ensures var r := ScanFrom(ok, ledAddr, id, stop, k);
            (e.txn.Ping? && id <= e.txn.id <= stop)
            || (e.txn.Write? && e.txn.id in r.ids && e.txn.addr == ledAddr && e.txn.bank == Ram)
    decreases stop - id
  {
    var p := Probed(ok, ledAddr, id, k);
    var rest := ScanFrom(ok, ledAddr, id + 1, stop, k + |p|);
    var pre := if ok(k) then [id] else [];
    var r := ScanFrom(ok, ledAddr, id, stop, k);
    assert r.ids == pre + rest.ids && r.entries == p + rest.entries;
    if e in p {
      ProbedShape(ok, ledAddr, id, k);
      if e.txn.Write? {
        assert id in pre;
      }
    } else {
      ScanEntryShape(ok, ledAddr, id + 1, stop, k + |p|, e);
    }
  }

  /**
   * Apart from its pings, a scan only writes the LED register (in RAM) of
   * servos it reports as found.
   */
  lemma ScanIssuesOnlyPingsAndBlinks(ok: nat -> bool, ledAddr: int, id: int, stop: int, k: nat)
    ensures var r := ScanFrom(ok, ledAddr, id, stop, k);
            forall e :: e in r.entries ==>
              (e.txn.Ping? && id <= e.txn.id <= stop)
              || (e.txn.Write? && e.txn.id in r.ids && e.txn.addr == ledAddr && e.txn.bank == Ram)
  {
    forall e | e in ScanFrom(ok, ledAddr, id, stop, k).entries
      ensures var r := ScanFrom(ok, ledAddr, id, stop, k);
              (e.txn.Ping? && id <= e.txn.id <= stop)
              || (e.txn.Write? && e.txn.id in r.ids && e.txn.addr == ledAddr && e.txn.bank == Ram)
    {
      ScanEntryShape(ok, ledAddr, id, stop, k, e);
    }
  }

  /** A scan from `id` on reports no ID below `id`. */
  lemma {:induction false} ScanReportsFrom(ok: nat -> bool, ledAddr: int, id: int, stop: int, k: nat, x: int)
    requires x < id
    ensures x !in ScanFrom(ok, ledAddr, id, stop, k).ids
    decreases stop - id
  {
    if id <= stop {
      var p := Probed(ok, ledAddr, id, k);
      var rest := ScanFrom(ok, ledAddr, id + 1, stop, k + |p|);
      assert ScanFrom(ok, ledAddr, id, stop, k).ids == (if ok(k) then [id] else []) + rest.ids;
      ScanReportsFrom(ok, ledAddr, id + 1, stop, k + |p|, x);
    }
  }

  /**
   * An ID of the range is reported exactly when its ping succeeded; a ping
   * that gets no answer is not an error, only an absence.
   */
  lemma {:induction false} ScanFindsExactlyResponders(ok: nat -> bool, ledAddr: int, id: int, stop: int, k: nat, x: int)
    requires id <= x <= stop
    ensures var r := ScanFrom(ok, ledAddr, id, stop, k);
            x in r.ids <==> Entry(Ping(x), true) in r.entries
    decreases stop - id
  {
    var p := Probed(ok, ledAddr, id, k);
    var rest := ScanFrom(ok, ledAddr, id + 1, stop, k + |p|);
    var pre := if ok(k) then [id] else [];
    var r := ScanFrom(ok, ledAddr, id, stop, k);
    assert r.ids == pre + rest.ids && r.entries == p + rest.entries;
    ProbedAnswer(ok, ledAddr, id, k, x);
    if x == id {
      ScanReportsFrom(ok, ledAddr, id + 1, stop, k + |p|, x);
      ScanAnswersFrom(ok, ledAddr, id + 1, stop, k + |p|, x);
      assert x in pre + rest.ids <==> ok(k);
      assert Entry(Ping(x), true) in p + rest.entries <==> ok(k);
    } else {
      ScanFindsExactlyResponders(ok, ledAddr, id + 1, stop, k + |p|, x);
      assert x in pre + rest.ids <==> x in rest.ids;
      assert Entry(Ping(x), true) in p + rest.entries <==> Entry(Ping(x), true) in rest.entries;
    }
  }

  /** What a whole scan promises: sorted IDs in range, reported exactly when they answered. */
  lemma ScanProperties(ok: nat -> bool, ledAddr: int, id: int, stop: int, k: nat)
    ensures var r := ScanFrom(ok, ledAddr, id, stop, k);
            Increasing(r.ids) && Within(r.ids, id, stop)
            && forall x :: id <= x <= stop ==> (x in r.ids <==> Entry(Ping(x), true) in r.entries)
  {
    ScanIdsIncreasing(ok, ledAddr, id, stop, k);
    forall x | id <= x <= stop
      ensures var r := ScanFrom(ok, ledAddr, id, stop, k);
              x in r.ids <==> Entry(Ping(x), true) in r.entries
    {
      ScanFindsExactlyResponders(ok, ledAddr, id, stop, k, x);
    }
  }
}
