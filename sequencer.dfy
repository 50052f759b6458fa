/** The acquisition sequencer as pure functions of the bus script: for each
    driver operation started at script position `i`, the code it returns,
    how many bus replies it consumes and what it issues (a Run). The driver
    class in module Driver is proved to behave as these functions say. */
module Sequencer {
  import opened FixedWidth
  import opened Registers
  import opened Bus

  /** The code, the number of bus replies consumed and the operations issued. */
  datatype Run = Run(code: uint8, used: nat, trace: seq<Op>)

  /** `a` followed by `b`; the code is the last step's. */
  function Then(a: Run, b: Run): Run
  {
    Run(b.code, a.used + b.used, a.trace + b.trace)
  }

  /** Number of reads of register `reg` in a trace. */
  function Reads(t: seq<Op>, reg: uint8): nat
  {
    if t == [] then 0
    else (if t[0].RegRead? && t[0].reg == reg then 1 else 0) + Reads(t[1..], reg)
  }

  lemma {:induction false} ReadsAppend(a: seq<Op>, b: seq<Op>, reg: uint8)
    ensures Reads(a + b, reg) == Reads(a, reg) + Reads(b, reg)
  {
    if a == [] {
      assert a + b == b;
    } else {
      assert (a + b)[0] == a[0];
      assert (a + b)[1..] == a[1..] + b;
      ReadsAppend(a[1..], b, reg);
    }
  }

  /** CheckID: the bus error, else 0 exactly when the ID byte is 0x58. */
  function IdCode(r: Reply): (e: uint8)
    ensures r.code != 0 ==> e == r.code
    ensures e == 0 <==> r.code == 0 && FirstByte(r) == CHIP_ID
  {
    if r.code != 0 then r.code else if FirstByte(r) != CHIP_ID then 1 else 0
  }

  /** The status byte masked with the measuring and image-update bits. */
  function StatusBits(r: Reply): bv8
  {
    (FirstByte(r) as bv8) & STATUS_MASK
  }

  /** ReadBusy as written: the bus error, else 1 when BOTH status bits are
      clear, 0 when either is set. */
  function BusyCode(r: Reply): (e: uint8)
    ensures r.code != 0 ==> e == r.code
    ensures r.code == 0 ==> (e == 1 <==>
      (FirstByte(r) as bv8) & 0x08 == 0 && (FirstByte(r) as bv8) & 0x01 == 0)
    ensures r.code == 0 ==> e <= 1
  {
    if r.code != 0 then r.code else if StatusBits(r) == 0 then 1 else 0
  }

  /** ReadBusy as its comment describes it: 1 = busy, 0 = ready. */
  function BusyCodeIntended(r: Reply): (e: uint8)
    ensures r.code != 0 ==> e == r.code
    ensures r.code == 0 ==> (e == 1 <==>
      (FirstByte(r) as bv8) & 0x08 != 0 || (FirstByte(r) as bv8) & 0x01 != 0)
    ensures r.code == 0 ==> e <= 1
  {
    if r.code != 0 then r.code else if StatusBits(r) != 0 then 1 else 0
  }

  /** On a successful read the expression as written answers the opposite of
      what its comment promises. */
  lemma BusyCodeInverted(r: Reply)
    requires r.code == 0
    ensures BusyCode(r) == 1 - BusyCodeIntended(r)
  {
  }

  /** A status of 0x08 (a conversion is running) reads as "ready". */
  lemma BusyCodeReadyWhileMeasuring()
    ensures BusyCode(Reply(0, [0x08])) == 0
    ensures BusyCodeIntended(Reply(0, [0x08])) == 1
  {
    
  }

  function CheckIdRun(s: seq<Reply>, i: nat): Run
  {
    Run(IdCode(At(s, i)), 1, [RegRead(ADDR, REG_ID, 1)])
  }

  function ReadCalibRun(s: seq<Reply>, i: nat): Run
  {
    Run(At(s, i).code, 1, [RegRead(ADDR, REG_CALIB, 26)])
  }

  function BusyRun(s: seq<Reply>, i: nat): Run
  {
    Run(BusyCode(At(s, i)), 1, [RegRead(ADDR, REG_STATUS, 1)])
  }

  /** Trigger: the configuration write, then the control write only if the
      first one succeeded. */
  function TriggerRun(s: seq<Reply>, i: nat): (t: Run)
    ensures t.code == 0 <==> At(s, i).code == 0 && At(s, i + 1).code == 0
    ensures 1 <= t.used == |t.trace| <= 2 && t.trace[0] == RegWrite(ADDR, REG_CONFIG, CONFIG_VALUE)
    ensures t.used == 2 <==> At(s, i).code == 0
    ensures t.used == 2 ==> t.trace[1] == RegWrite(ADDR, REG_CTRL, CTRL_VALUE)
    ensures At(s, i).code != 0 ==> t.code == At(s, i).code
    ensures At(s, i).code == 0 ==> t.code == At(s, i + 1).code
  {
    if At(s, i).code != 0 then Run(At(s, i).code, 1, [RegWrite(ADDR, REG_CONFIG, CONFIG_VALUE)])
    else Run(At(s, i + 1).code, 2, [RegWrite(ADDR, REG_CONFIG, CONFIG_VALUE), RegWrite(ADDR, REG_CTRL, CTRL_VALUE)])
  }

  /** The polling loop of WaitReady with `timeout` polls left: a bus error
      (> 1) or ready (0) ends it, busy (1) sleeps 1 ms and polls again, and
      0xFF reports that the polls ran out. */
  function PollRun(s: seq<Reply>, i: nat, timeout: nat): Run
  {
    PollsUntil(s, i, i + timeout)
  }

  /** The polls from script position `i`, the last one allowed at `end - 1`. */
  function PollsUntil(s: seq<Reply>, i: nat, end: nat): Run
    decreases end - i
  {
    if end <= i then Run(0xFF, 0, [])
    else
      var e := BusyCode(At(s, i));
      if e != 1 then Run(e, 1, [RegRead(ADDR, REG_STATUS, 1)])
      else Then(Run(1, 1, [RegRead(ADDR, REG_STATUS, 1), Pause(1)]), PollsUntil(s, i + 1, end))
  }

  /** One poll, then the remaining ones. */
  lemma PollRunUnfold(s: seq<Reply>, i: nat, timeout: nat)
    requires timeout > 0
    ensures PollRun(s, i, timeout)
      == if BusyCode(At(s, i)) != 1 then Run(BusyCode(At(s, i)), 1, [RegRead(ADDR, REG_STATUS, 1)])
         else Then(Run(1, 1, [RegRead(ADDR, REG_STATUS, 1), Pause(1)]), PollRun(s, i + 1, timeout - 1))
  {
    assert i + 1 + (timeout - 1) == i + timeout;
  }

  function WaitReadyRun(s: seq<Reply>, i: nat, timeout: nat, wait: nat): Run
  {
    Then(Run(0, 0, [Pause(wait)]), PollRun(s, i, timeout))
  }

  function ReadRawRun(s: seq<Reply>, i: nat, reg: uint8): Run
  {
    Run(At(s, i).code, 1, [RegRead(ADDR, reg, 3)])
  }

  /** The raw code a successful read of a result register leaves, else 0. */
  function RawOf(r: Reply): (raw: int32)
    ensures 0 <= raw < 0x10_0000
  {
    if r.code != 0 then 0
    else var b := Payload(r, 3); RawFromBytes(b[0], b[1], b[2])
  }

  /** The trace of `n` polls that all reported busy. */
  function BusyPolls(n: nat): (t: seq<Op>)
    ensures |t| == 2 * n
  {
    if n == 0 then [] else BusyPolls(n - 1) + [RegRead(ADDR, REG_STATUS, 1), Pause(1)]
  }

  lemma {:induction false} BusyPollsCons(n: nat)
    ensures [RegRead(ADDR, REG_STATUS, 1), Pause(1)] + BusyPolls(n) == BusyPolls(n + 1)
  {
    if n > 0 {
      BusyPollsCons(n - 1);
    }
  }

  /** Polling issues only status reads and delays, one read per reply used,
      and never more than `timeout` of them. */
  lemma {:induction false} PollRunBounded(s: seq<Reply>, i: nat, timeout: nat)
    ensures var r := PollRun(s, i, timeout);
      && r.used <= timeout
      && Reads(r.trace, REG_STATUS) == r.used
      && forall reg :: reg != REG_STATUS ==> Reads(r.trace, reg) == 0
    decreases timeout
  {
    if timeout > 0 && BusyCode(At(s, i)) == 1 {
      PollRunBounded(s, i + 1, timeout - 1);
      var rest := PollRun(s, i + 1, timeout - 1);
      forall reg: uint8
        ensures Reads(PollRun(s, i, timeout).trace, reg)
             == (if reg == REG_STATUS then 1 else 0) + Reads(rest.trace, reg)
      {
        ReadsAppend([RegRead(ADDR, REG_STATUS, 1), Pause(1)], rest.trace, reg);
      }
    }
  }

  /** When every poll reports busy the loop runs out: 0xFF after exactly
      `timeout` polls (with timeout 0, at once and without polling). */
  lemma {:induction false} PollRunAllBusy(s: seq<Reply>, i: nat, timeout: nat)
    requires forall j :: i <= j < i + timeout ==> BusyCode(At(s, j)) == 1
    ensures PollRun(s, i, timeout) == Run(0xFF, timeout, BusyPolls(timeout))
    decreases timeout
  {
    if timeout > 0 {
      PollRunAllBusy(s, i + 1, timeout - 1);
      BusyPollsCons(timeout - 1);
    }
  }

  /** The first poll that does not report busy decides: its code (0 for
      ready, the bus error otherwise) is returned unchanged and no further
      poll is issued. */
  lemma {:induction false} PollRunFirstDecisive(s: seq<Reply>, i: nat, timeout: nat, k: nat)
    requires i <= k < i + timeout
    requires forall j :: i <= j < k ==> BusyCode(At(s, j)) == 1
    requires BusyCode(At(s, k)) != 1
    ensures PollRun(s, i, timeout)
      == Run(BusyCode(At(s, k)), k - i + 1, BusyPolls(k - i) + [RegRead(ADDR, REG_STATUS, 1)])
    decreases timeout
  {
    if i < k {
      PollRunFirstDecisive(s, i + 1, timeout - 1, k);
      BusyPollsCons(k - i - 1);
    }
  }

  /** Unless the bus itself answers with error code 0xFF, WaitReady reports
      0xFF exactly when all `timeout` polls reported busy. */
  lemma {:induction false} PollRunTimeoutIff(s: seq<Reply>, i: nat, timeout: nat)
    requires forall j :: i <= j < i + timeout ==> At(s, j).code != 0xFF
    ensures PollRun(s, i, timeout).code == 0xFF
        <==> forall j :: i <= j < i + timeout ==> BusyCode(At(s, j)) == 1
    decreases timeout
  {
    if timeout > 0 {
      PollRunTimeoutIff(s, i + 1, timeout - 1);
    }
  }

  /** WaitReady when the poll at `i + n` is the first not to find the sensor
      busy: that poll's code, after the initial delay, `n` busy polls and
      the deciding status read. */
  lemma WaitReadyDecided(s: seq<Reply>, i: nat, timeout: nat, wait: nat, n: nat, before: uint8)
    requires n < timeout
    requires forall j :: i <= j < i + n ==> BusyCode(At(s, j)) == 1
    requires BusyCode(At(s, i + n)) != 1
    ensures WaitReadyRun(s, i, timeout, wait)
      == Run(BusyCode(At(s, i + n)), n + 1, [Pause(wait)] + (BusyPolls(n) + [RegRead(ADDR, REG_STATUS, 1)]))
    ensures ErrorAfterWait(s, i, timeout, before) == At(s, i + n).code
  {
    PollRunFirstDecisive(s, i, timeout, i + n);
  }

  /** WaitReady when every poll returned ReadBusy's busy code 1 (Status &
      0x09 == 0 under the expression as written): 0xFF after the delay
      and `timeout` busy polls. */
  lemma WaitReadyTimedOut(s: seq<Reply>, i: nat, timeout: nat, wait: nat, before: uint8)
    requires forall j :: i <= j < i + timeout ==> BusyCode(At(s, j)) == 1
    ensures WaitReadyRun(s, i, timeout, wait) == Run(0xFF, timeout, [Pause(wait)] + BusyPolls(timeout))
    ensures ErrorAfterWait(s, i, timeout, before) == if timeout == 0 then before else At(s, i + timeout - 1).code
  {
    PollRunAllBusy(s, i, timeout);
  }

  /** WaitReady's defaults. */
  const TIMEOUT: nat := 20
  const WAIT: nat := 30

  /** With ReadBusy as written, a conversion still running (status 0x08)
      ends the wait at the first poll: Acquire reads both result registers
      before the conversion is done and reports success. */
  lemma AcquireTakesRunningAsDone(s: seq<Reply>, i: nat, timeout: nat, wait: nat)
    requires timeout > 0
    requires At(s, i).code == 0 && At(s, i + 1).code == 0
    requires At(s, i + 2) == Reply(0, [0x08])
    requires At(s, i + 3).code == 0 && At(s, i + 4).code == 0
    ensures var r := AcquireRun(s, i, timeout, wait);
      && r.code == 0 && r.used == 5
      && Reads(r.trace, REG_TEMP) == 1 && Reads(r.trace, REG_PRESS) == 1
  {
    BusyCodeReadyWhileMeasuring();
    PollRunFirstDecisive(s, i + 2, timeout, i + 2);
    AcquireShortCircuit(s, i, timeout, wait);
    AcquireSucceeds(s, i, timeout, wait);
  }

  /** Acquire as intended: Trigger, WaitReady, ReadRawTemp, ReadRawPress,
      stopping at the first step that returns a non-zero code. */
  function AcquireRun(s: seq<Reply>, i: nat, timeout: nat, wait: nat): Run
  {
    var t := TriggerRun(s, i);
    if t.code != 0 then t else Then(t, AfterTrigger(s, i + t.used, timeout, wait))
  }

  /** The steps of Acquire after a successful Trigger. */
  function AfterTrigger(s: seq<Reply>, i: nat, timeout: nat, wait: nat): Run
  {
    var w := WaitReadyRun(s, i, timeout, wait);
    if w.code != 0 then w else Then(w, ReadBoth(s, i + w.used))
  }

  /** ReadRawTemp, then ReadRawPress if the first read succeeded. */
  function ReadBoth(s: seq<Reply>, i: nat): Run
  {
    var rt := ReadRawRun(s, i, REG_TEMP);
    if rt.code != 0 then rt else Then(rt, ReadRawRun(s, i + 1, REG_PRESS))
  }

  /** The last poll decides: it is the first poll not reporting busy and its
      code is returned, or every poll reported busy and 0xFF is returned. */
  lemma {:induction false} PollRunLast(s: seq<Reply>, i: nat, timeout: nat)
    requires timeout > 0
    ensures var r := PollRun(s, i, timeout);
      && 1 <= r.used <= timeout && r.code != 1
      && (forall j :: i <= j < i + r.used - 1 ==> BusyCode(At(s, j)) == 1)
      && (r.code == BusyCode(At(s, i + r.used - 1))
          || (r.code == 0xFF && r.used == timeout && BusyCode(At(s, i + r.used - 1)) == 1))
    decreases timeout
  {
    PollRunUnfold(s, i, timeout);
    if timeout > 1 && BusyCode(At(s, i)) == 1 {
      PollRunLast(s, i + 1, timeout - 1);
    }
  }

  lemma ReadsSingle(o: Op, reg: uint8)
    ensures Reads([o], reg) == if o.RegRead? && o.reg == reg then 1 else 0
  {
    assert [o][1..] == [];
  }

  /** Trigger issues no read. */
  lemma TriggerReadsNothing(s: seq<Reply>, i: nat, reg: uint8)
    ensures Reads(TriggerRun(s, i).trace, reg) == 0
  {
    ReadsSingle(RegWrite(ADDR, REG_CONFIG, CONFIG_VALUE), reg);
    ReadsSingle(RegWrite(ADDR, REG_CTRL, CTRL_VALUE), reg);
    ReadsAppend([RegWrite(ADDR, REG_CONFIG, CONFIG_VALUE)], [RegWrite(ADDR, REG_CTRL, CTRL_VALUE)], reg);
    assert [RegWrite(ADDR, REG_CONFIG, CONFIG_VALUE), RegWrite(ADDR, REG_CTRL, CTRL_VALUE)]
        == [RegWrite(ADDR, REG_CONFIG, CONFIG_VALUE)] + [RegWrite(ADDR, REG_CTRL, CTRL_VALUE)];
  }

  /** WaitReady reads the status register only. */
  lemma WaitReadyReadsStatusOnly(s: seq<Reply>, i: nat, timeout: nat, wait: nat, reg: uint8)
    requires reg != REG_STATUS
    ensures Reads(WaitReadyRun(s, i, timeout, wait).trace, reg) == 0
  {
    PollRunBounded(s, i, timeout);
    ReadsSingle(Pause(wait), reg);
    ReadsAppend([Pause(wait)], PollRun(s, i, timeout).trace, reg);
  }

  /** ReadBoth reads the temperature register once, and the pressure
      register once exactly when the temperature read succeeded. */
  lemma ReadBothReads(s: seq<Reply>, i: nat)
    ensures var r := ReadBoth(s, i);
      && Reads(r.trace, REG_TEMP) == 1
      && Reads(r.trace, REG_PRESS) == if At(s, i).code == 0 then 1 else 0
  {
    ReadsSingle(RegRead(ADDR, REG_TEMP, 3), REG_TEMP);
    ReadsSingle(RegRead(ADDR, REG_TEMP, 3), REG_PRESS);
    if At(s, i).code == 0 {
      ReadsSingle(RegRead(ADDR, REG_PRESS, 3), REG_TEMP);
      ReadsSingle(RegRead(ADDR, REG_PRESS, 3), REG_PRESS);
      ReadsAppend([RegRead(ADDR, REG_TEMP, 3)], [RegRead(ADDR, REG_PRESS, 3)], REG_TEMP);
      ReadsAppend([RegRead(ADDR, REG_TEMP, 3)], [RegRead(ADDR, REG_PRESS, 3)], REG_PRESS);
    }
  }

  /** After Trigger, the result registers are read only once WaitReady
      returned 0. */
  lemma AfterTriggerReads(s: seq<Reply>, i: nat, timeout: nat, wait: nat)
    ensures var a := AfterTrigger(s, i, timeout, wait);
      var w := WaitReadyRun(s, i, timeout, wait);
      && Reads(a.trace, REG_TEMP) == (if w.code == 0 then 1 else 0)
      && Reads(a.trace, REG_PRESS) == (if w.code == 0 && At(s, i + w.used).code == 0 then 1 else 0)
  {
    var w := WaitReadyRun(s, i, timeout, wait);
    WaitReadyReadsStatusOnly(s, i, timeout, wait, REG_TEMP);
    WaitReadyReadsStatusOnly(s, i, timeout, wait, REG_PRESS);
    if w.code == 0 {
      var rb := ReadBoth(s, i + w.used);
      ReadBothReads(s, i + w.used);
      ReadsAppend(w.trace, rb.trace, REG_TEMP);
      ReadsAppend(w.trace, rb.trace, REG_PRESS);
    }
  }

  /** Acquire stops at the first failing step: a failing Trigger is the
      whole run; the temperature register is read (once) exactly when
      Trigger and WaitReady both returned 0, and the pressure register (once)
      exactly when the temperature read succeeded too. */
  lemma AcquireShortCircuit(s: seq<Reply>, i: nat, timeout: nat, wait: nat)
    ensures var r := AcquireRun(s, i, timeout, wait);
      var t := TriggerRun(s, i);
      var w := WaitReadyRun(s, i + t.used, timeout, wait);
      && (t.code != 0 ==> r == t)
      && Reads(r.trace, REG_TEMP) == (if t.code == 0 && w.code == 0 then 1 else 0)
      && Reads(r.trace, REG_PRESS)
         == (if t.code == 0 && w.code == 0 && At(s, i + t.used + w.used).code == 0 then 1 else 0)
  {
    var t := TriggerRun(s, i);
    TriggerReadsNothing(s, i, REG_TEMP);
    TriggerReadsNothing(s, i, REG_PRESS);
    if t.code == 0 {
      var a := AfterTrigger(s, i + t.used, timeout, wait);
      AfterTriggerReads(s, i + t.used, timeout, wait);
      ReadsAppend(t.trace, a.trace, REG_TEMP);
      ReadsAppend(t.trace, a.trace, REG_PRESS);
    }
  }

  /** Acquire succeeds exactly when all four steps do; it then consumed
      two replies more than Trigger and WaitReady, and its last two
      transactions are the temperature and the pressure read. */
  lemma AcquireSucceeds(s: seq<Reply>, i: nat, timeout: nat, wait: nat)
    ensures var r := AcquireRun(s, i, timeout, wait);
      var t := TriggerRun(s, i);
      var w := WaitReadyRun(s, i + t.used, timeout, wait);
      && (r.code == 0 <==>
            t.code == 0 && w.code == 0
            && At(s, i + t.used + w.used).code == 0 && At(s, i + t.used + w.used + 1).code == 0)
      && (r.code == 0 ==>
            r.used == t.used + w.used + 2
            && r.trace[|r.trace| - 2..] == [RegRead(ADDR, REG_TEMP, 3), RegRead(ADDR, REG_PRESS, 3)])
  {
    var t := TriggerRun(s, i);
    if t.code == 0 {
      var w := WaitReadyRun(s, i + t.used, timeout, wait);
      if w.code == 0 {
        var j := i + t.used + w.used;
        if At(s, j).code == 0 {
          var last := [RegRead(ADDR, REG_TEMP, 3), RegRead(ADDR, REG_PRESS, 3)];
          assert ReadBoth(s, j).trace == last;
          assert AcquireRun(s, i, timeout, wait).trace == t.trace + (w.trace + last);
        }
      }
    }
  }

  /** Acquire as a sequence of the four driver steps, each started where the
      previous one stopped. */
  lemma AcquireSteps(s: seq<Reply>, i: nat, timeout: nat, wait: nat)
    ensures var t := TriggerRun(s, i);
      var w := WaitReadyRun(s, i + t.used, timeout, wait);
      var rt := ReadRawRun(s, i + t.used + w.used, REG_TEMP);
      var rp := ReadRawRun(s, i + t.used + w.used + 1, REG_PRESS);
      AcquireRun(s, i, timeout, wait)
      == if t.code != 0 then t
         else if w.code != 0 then Run(w.code, t.used + w.used, t.trace + w.trace)
         else if rt.code != 0 then Run(rt.code, t.used + w.used + 1, t.trace + (w.trace + rt.trace))
         else Run(rp.code, t.used + w.used + 2, t.trace + (w.trace + (rt.trace + rp.trace)))
  {
  }

  /** When every status poll returns ReadBusy's busy code 1 (Status & 0x09
      == 0 under the expression as written), Acquire returns 0xFF and reads
      no result register. */
  lemma AcquireReportsTimeout(s: seq<Reply>, i: nat, timeout: nat, wait: nat)
    requires At(s, i).code == 0 && At(s, i + 1).code == 0
    requires forall j :: i + 2 <= j < i + 2 + timeout ==> BusyCode(At(s, j)) == 1
    ensures AcquireRun(s, i, timeout, wait).code == 0xFF
    ensures Reads(AcquireRun(s, i, timeout, wait).trace, REG_TEMP) == 0
  {
    PollRunAllBusy(s, i + 2, timeout);
    AcquireShortCircuit(s, i, timeout, wait);
  }

  /** The Error field after WaitReady: the bus code of the last status read,
      or, when no poll was issued, Trigger's code still held there. */
  function ErrorAfterWait(s: seq<Reply>, i: nat, timeout: nat, before: uint8): uint8
  {
    var n := PollRun(s, i, timeout).used;
    if n == 0 then before else At(s, i + n - 1).code
  }

  /** Acquire with bmp280.h:116 as written: when WaitReady fails it returns the
      Error field instead of WaitReady's code; every other step is as in
      AcquireRun (bmp280.h:115 and 118 read as the calls to Trigger and
      ReadRawPress they evidently name). */
  function AcquireAsWritten(s: seq<Reply>, i: nat, timeout: nat, wait: nat): Run
  {
    var t := TriggerRun(s, i);
    var w := WaitReadyRun(s, i + t.used, timeout, wait);
    if t.code == 0 && w.code != 0 then
      Run(ErrorAfterWait(s, i + t.used, timeout, t.code), t.used + w.used, t.trace + w.trace)
    else AcquireRun(s, i, timeout, wait)
  }

  /** The as-written Acquire differs from the intended one only on a
      timeout, which it reports as the last status read's bus code: 0 (or
      1), i.e. as success. */
  lemma AsWrittenDiffersOnTimeout(s: seq<Reply>, i: nat, timeout: nat, wait: nat)
    ensures AcquireAsWritten(s, i, timeout, wait).code != AcquireRun(s, i, timeout, wait).code ==>
      AcquireRun(s, i, timeout, wait).code == 0xFF && AcquireAsWritten(s, i, timeout, wait).code <= 1
  {
    var t := TriggerRun(s, i);
    var w := WaitReadyRun(s, i + t.used, timeout, wait);
    if t.code == 0 && w.code != 0 {
      var p := PollRun(s, i + t.used, timeout);
      assert AcquireRun(s, i, timeout, wait).code == w.code;
      if timeout > 0 {
        PollRunLast(s, i + t.used, timeout);
        assert AcquireAsWritten(s, i, timeout, wait).code == At(s, i + t.used + p.used - 1).code;
      }
    }
  }

  /** Trigger succeeds and the sensor never reports ready (status 0x00 reads
      as busy): the intended Acquire reports the timeout 0xFF, the as-written
      one reports 0. */
  lemma AsWrittenMasksTimeout()
    ensures var s := [Reply(0, []), Reply(0, [])] + seq(TIMEOUT, k => Reply(0, [0x00]));
      AcquireRun(s, 0, TIMEOUT, WAIT).code == 0xFF && AcquireAsWritten(s, 0, TIMEOUT, WAIT).code == 0
  {
    var s := [Reply(0, []), Reply(0, [])] + seq(TIMEOUT, k => Reply(0, [0x00]));
    forall j | 2 <= j < 2 + TIMEOUT ensures BusyCode(At(s, j)) == 1 {
      assert FirstByte(At(s, j)) == 0;
    }
    PollRunAllBusy(s, 2, TIMEOUT);
  }
}
