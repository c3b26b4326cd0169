/**
 * The servo bus as the simple API sees it: every `hkx_*` call is one
 * transaction, appended to a log together with its outcome.
 *
 * What the devices answer is not modelled: an oracle fixed when the bus is
 * built says whether the k-th transaction succeeds (`ok(k)`) and which value a
 * read returns (`reply(k)`). `hkx_print_error() == 0` and
 * `hkx_get_com_status() == COMM_RXSUCCESS` are not part of this model; both
 * are assumed to report the outcome of the last transaction, `LastOk()`.
 */
module Transport {
  import opened Wrappers

  /** ROM (kept across power cycles) or RAM (live state). */
  datatype Bank = Rom | Ram

  /** `hkx_*_byte` or `hkx_*_word`. */
  datatype Width = Byte | Word

  /** The access width used for a register of `size` bytes; none for any other size. */
  function WidthOf(size: int): (w: Option<Width>)
    ensures w.Some? <==> size == 1 || size == 2
    ensures w == Some(Byte) <==> size == 1
  {
    if size == 1 then Some(Byte) else if size == 2 then Some(Word) else None
  }

  datatype Transaction =
    | Ping(id: int)
    | Read(id: int, addr: int, bank: Bank, width: Width)
    | Write(id: int, addr: int, value: int, bank: Bank, width: Width)
    | IJog(id: int, mode: int, value: int)
    | Reboot(id: int)
    | Reset(id: int, setting: int)

  /** A transaction and whether it succeeded. */
  datatype Entry = Entry(txn: Transaction, ok: bool)

  /** Some write among `es` succeeded. */
  predicate SomeWriteSucceeded(es: seq<Entry>)
  {
    exists j :: 0 <= j < |es| && es[j].txn.Write? && es[j].ok
  }

  /** A write succeeded in `a + b` exactly when one succeeded in `a` or in `b`. */
  lemma SomeWriteSucceededSplit(a: seq<Entry>, b: seq<Entry>)
    ensures SomeWriteSucceeded(a + b) <==> SomeWriteSucceeded(a) || SomeWriteSucceeded(b)
  {
    if SomeWriteSucceeded(a + b) {
      var j :| 0 <= j < |a + b| && (a + b)[j].txn.Write? && (a + b)[j].ok;
      if j >= |a| {
        assert b[j - |a|] == (a + b)[j];
      }
    }
    if SomeWriteSucceeded(b) {
      var j :| 0 <= j < |b| && b[j].txn.Write? && b[j].ok;
      assert (a + b)[|a| + j] == b[j];
    }
    if SomeWriteSucceeded(a) {
      var j :| 0 <= j < |a| && a[j].txn.Write? && a[j].ok;
      assert (a + b)[j] == a[j];
    }
  }

  /** For a single entry: it is a successful write. */
  lemma SomeWriteSucceededOne(e: Entry)
    ensures SomeWriteSucceeded([e]) <==> e.txn.Write? && e.ok
  {
    if e.txn.Write? && e.ok {
      assert [e][0] == e;
    }
  }

  class Bus {
    /** Oracle: does the k-th transaction on this bus succeed? */
    const ok: nat -> bool
    /** Oracle: the value the k-th transaction returns when it is a read. */
    const reply: nat -> int
    /** The communication status before the first transaction. */
    const initOk: bool
    /** Every transaction issued so far, in order. */
    var log: seq<Entry>

    constructor (ok: nat -> bool, reply: nat -> int, initOk: bool)
      ensures this.ok == ok && this.reply == reply && this.initOk == initOk
      ensures log == []
    {
      this.ok := ok;
      this.reply := reply;
      this.initOk := initOk;
      log := [];
    }

    /** Status of the last transaction (`hkx_print_error() == 0`). */
    function LastOk(): bool
      reads this
    {
      if log == [] then initOk else log[|log| - 1].ok
    }

    /** Issue a transaction whose answer carries no value. */
    method Send(t: Transaction)
      modifies this
      ensures log == old(log) + [Entry(t, ok(|old(log)|))]
      ensures LastOk() == ok(|old(log)|)
    {
      log := log + [Entry(t, ok(|log|))];
    }

    /** Issue a read and return what the device answered. */
    method Request(t: Transaction) returns (v: int)
      modifies this
      ensures log == old(log) + [Entry(t, ok(|old(log)|))]
      ensures LastOk() == ok(|old(log)|)
      ensures v == reply(|old(log)|)
    {
      v := reply(|log|);
      log := log + [Entry(t, ok(|log|))];
    }
  }
}
