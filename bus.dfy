/** The serial bus as the driver sees it: single- and multi-byte register
    reads and single-byte register writes, each answered with a status code
    (0 = success) and, for a read, the bytes. The bus is a test double that
    answers from a fixed script, one reply per transaction, and keeps a ghost
    log of every transaction and every delay the driver issues. */
module Bus {
  import opened FixedWidth

  /** One scripted answer: the bus status code and, for a read, the bytes. */
  datatype Reply = Reply(code: uint8, data: seq<uint8>)

  /** What the driver asked of its environment. */
  datatype Op =
    | RegRead(addr: uint8, reg: uint8, len: nat)
    | RegWrite(addr: uint8, reg: uint8, value: uint8)
    | Pause(ms: nat)

  /** The `n` bytes a successful read of `n` bytes delivers: the scripted
      bytes, padded with zeros if the script gives fewer. */
  function Payload(r: Reply, n: nat): (b: seq<uint8>)
    ensures |b| == n
    ensures forall k :: 0 <= k < n && k < |r.data| ==> b[k] == r.data[k]
    ensures forall k :: |r.data| <= k < n ==> b[k] == 0
  {
    seq(n, k requires 0 <= k < n => if k < |r.data| then r.data[k] else 0)
  }

  /** What a transaction past the end of a script receives: a bus fault
      (no device acknowledges). */
  const Unanswered := Reply(2, [])

  /** The reply to the transaction at position `i` of a script. */
  function At(script: seq<Reply>, i: nat): (r: Reply)
    ensures i < |script| ==> r == script[i]
  {
    if i < |script| then script[i] else Unanswered
  }

  /** The byte a successful one-byte read delivers. */
  function FirstByte(r: Reply): (b: uint8)
    ensures |r.data| > 0 ==> b == r.data[0]
  {
    if |r.data| > 0 then r.data[0] else 0
  }

  lemma FirstBytePayload(r: Reply)
    ensures Payload(r, 1) == [FirstByte(r)]
  {
  }

  class ScriptedBus {
    /** The replies to the transactions, in order. */
    const Script: seq<Reply>
    /** Number of transactions served so far. */
    var Pos: nat
    /** Every transaction and delay, in order. */
    ghost var Log: seq<Op>

    constructor (script: seq<Reply>)
      ensures Script == script && Pos == 0 && Log == []
    {
      Script := script;
      Pos := 0;
      Log := [];
    }

    /** Reads `len` bytes starting at register `reg`; on failure no bytes. */
    method Read(addr: uint8, reg: uint8, len: nat) returns (code: uint8, data: seq<uint8>)
      modifies this
      ensures Pos == old(Pos) + 1 && Log == old(Log) + [RegRead(addr, reg, len)]
      ensures code == At(Script, old(Pos)).code
      ensures data == if code == 0 then Payload(At(Script, old(Pos)), len) else []
    {
      var r := At(Script, Pos);
      code := r.code;
      data := if code == 0 then Payload(r, len) else [];
      Pos := Pos + 1;
      Log := Log + [RegRead(addr, reg, len)];
    }

    /** Writes one byte to register `reg`. */
    method Write(addr: uint8, reg: uint8, value: uint8) returns (code: uint8)
      modifies this
      ensures Pos == old(Pos) + 1 && Log == old(Log) + [RegWrite(addr, reg, value)]
      ensures code == At(Script, old(Pos)).code
    {
      code := At(Script, Pos).code;
      Pos := Pos + 1;
      Log := Log + [RegWrite(addr, reg, value)];
    }

    /** Blocks for `ms` milliseconds; only the log records it. */
    method Sleep(ms: nat)
      modifies this
      ensures Pos == old(Pos) && Log == old(Log) + [Pause(ms)]
    {
      Log := Log + [Pause(ms)];
    }
  }
}
