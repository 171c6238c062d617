/** One reader task and one writer task inside `rb_read` and `rb_write` of
    components/audio_pipeline/ringbuf.c, interleaved step by step: take the mutex, copy, release,
    test each flag, wait on the binary semaphore, wake the other side when the call ends.

    Any task may at any time set a flag or give a semaphore, so `rb_done_write`,
    `rb_unblock_reader` and the flags of `rb_abort` are all covered; a wait may also time out.
    `rb_reset`, and the mutex that `rb_abort` gives away, are not steps.

    This module holds the control part: who holds the mutex, where each task is, and how many
    bytes are in the buffer. RingFifo adds the bytes. */
module RingControl {
  import opened Basics
  import opened RingCore
  import opened RingObject

  datatype ReaderPc =
    | RIdle | RLoop | RLocked | REmpty | RTook
    | RCheckDone | RCheckAbort | RCheckUnblock | RWait
    | RFinish | RReturn

  datatype WriterPc =
    | WIdle | WLoop | WLocked | WFull | WPut
    | WCheckDone | WCheckAbort | WWait
    | WFinish | WReturn

  datatype Holder = Free | ByReader | ByWriter

  /** `left` remembers how many bytes were in the buffer at the end of the reader's last critical
      section, `since` how many have entered it since. */
  datatype Control = Control(
    size: nat, fill: nat, lock: Holder, canRead: bool, canWrite: bool,
    done: bool, abortRead: bool, abortWrite: bool, unblock: bool,
    rpc: ReaderPc, rlen: nat, rtotal: nat, rcode: int, left: nat,
    wpc: WriterPc, wlen: nat, wtotal: nat, wcode: int, since: nat)

  /** The atomic actions; `data` and `len` are the arguments of the call that starts. */
  datatype Step =
    | RStart(len: nat) | RExit | RAcquire | RSection | RUnlockEmpty | RUnlockTook
    | RTestDone | RTestAbort | RTestUnblock | RTake | RTimeout | RWake | RLeave
    | WStart(data: seq<byte>) | WExit | WAcquire | WSection | WUnlockFull | WUnlockPut
    | WTestDone | WTestAbort | WTake | WTimeout | WWake | WLeave
    | GiveRead | GiveWrite | SetDone | SetAbortRead | SetAbortWrite | SetUnblock

  ghost predicate Start(c: Control) {
    && c.fill == 0
    && c.lock == Free && !c.canRead && !c.canWrite
    && !c.done && !c.abortRead && !c.abortWrite && !c.unblock
    && c.rpc == RIdle && c.rlen == 0 && c.rtotal == 0 && c.rcode == RB_OK && c.left == 0
    && c.wpc == WIdle && c.wlen == 0 && c.wtotal == 0 && c.wcode == RB_OK && c.since == 0
  }

  predicate Enabled(c: Control, a: Step) {
    match a
    case RStart(_) => c.rpc.RIdle?
    case RExit => c.rpc.RLoop? && c.rtotal == c.rlen
    case RAcquire => c.rpc.RLoop? && c.rtotal != c.rlen && c.lock.Free?
    case RSection => c.rpc.RLocked?
    case RUnlockEmpty => c.rpc.REmpty?
    case RUnlockTook => c.rpc.RTook?
    case RTestDone => c.rpc.RCheckDone?
    case RTestAbort => c.rpc.RCheckAbort?
    case RTestUnblock => c.rpc.RCheckUnblock?
    case RTake => c.rpc.RWait? && c.canRead
    case RTimeout => c.rpc.RWait?
    case RWake => c.rpc.RFinish?
    case RLeave => c.rpc.RReturn?
    case WStart(_) => c.wpc.WIdle?
    case WExit => c.wpc.WLoop? && c.wtotal == c.wlen
    case WAcquire => c.wpc.WLoop? && c.wtotal != c.wlen && c.lock.Free?
    case WSection => c.wpc.WLocked?
    case WUnlockFull => c.wpc.WFull?
    case WUnlockPut => c.wpc.WPut?
    case WTestDone => c.wpc.WCheckDone?
    case WTestAbort => c.wpc.WCheckAbort?
    case WTake => c.wpc.WWait? && c.canWrite
    case WTimeout => c.wpc.WWait?
    case WWake => c.wpc.WFinish?
    case WLeave => c.wpc.WReturn?
    case _ => true
  }

  /** Bytes the reader's section takes in this state, and bytes the writer's section adds. */
  function Taking(c: Control): nat {
    if c.rtotal <= c.rlen then ReadSize(c.fill, c.rlen - c.rtotal) else 0
  }

  function Adding(c: Control): nat {
    if c.wtotal <= c.wlen && c.fill <= c.size then WriteSize(c.size - c.fill, c.wlen - c.wtotal) else 0
  }

  /** The reader's critical section: take what ReadSize allows, or learn there is nothing. */
  function ReaderSection(c: Control): Control {
    var n := Taking(c);
    c.(fill := c.fill - n, rtotal := c.rtotal + n, rpc := if n == 0 then REmpty else RTook,
       left := c.fill - n, since := 0)
  }

  /** A flag test: leave with `code` when the flag is up, else go on to `next`. */
  function ReaderTest(c: Control, flag: bool, code: int, next: ReaderPc): Control {
    c.(rpc := if flag then RFinish else next, rcode := if flag then code else c.rcode)
  }

  function WriterSection(c: Control): Control {
    var n := Adding(c);
    c.(fill := c.fill + n, wtotal := c.wtotal + n, wpc := if n == 0 then WFull else WPut,
       since := c.since + n)
  }

  function WriterTest(c: Control, flag: bool, code: int, next: WriterPc): Control {
    c.(wpc := if flag then WFinish else next, wcode := if flag then code else c.wcode)
  }

  function Do(c: Control, a: Step): (d: Control)
    ensures d.size == c.size
    ensures d.rlen == if a.RStart? then a.len else if a.RLeave? then 0 else c.rlen
    ensures d.wlen == if a.WStart? then |a.data| else if a.WLeave? then 0 else c.wlen
    ensures a.RSection? || d.rtotal == if a.RStart? || a.RLeave? then 0 else c.rtotal
    ensures a.WSection? || d.wtotal == if a.WStart? || a.WLeave? then 0 else c.wtotal
    ensures a.RSection? || a.WSection? || d.fill == c.fill
  {
    match a
    case RStart(len) => c.(rpc := RLoop, rlen := len, rtotal := 0, rcode := RB_OK)
    case RExit => c.(rpc := RFinish)
    case RAcquire => c.(lock := ByReader, rpc := RLocked)
    case RSection => ReaderSection(c)
    case RUnlockEmpty => c.(lock := Free, rpc := RCheckDone)
    case RUnlockTook => c.(lock := Free, rpc := if c.rtotal == c.rlen then RFinish else RLoop)
    case RTestDone => ReaderTest(c, c.done, RB_DONE, RCheckAbort)
    case RTestAbort => ReaderTest(c, c.abortRead, RB_ABORT, RCheckUnblock)
    case RTestUnblock => ReaderTest(c, c.unblock, RB_TIMEOUT, RWait)
    case RTake => c.(canRead := false, rpc := RLoop)
    case RTimeout => c.(rpc := RFinish, rcode := RB_TIMEOUT)
    case RWake => c.(canWrite := c.canWrite || c.rtotal > 0, rpc := RReturn)
    case RLeave => c.(unblock := false, rpc := RIdle, rlen := 0, rtotal := 0, rcode := RB_OK)
    case WStart(data) => c.(wpc := WLoop, wlen := |data|, wtotal := 0, wcode := RB_OK)
    case WExit => c.(wpc := WFinish)
    case WAcquire => c.(lock := ByWriter, wpc := WLocked)
    case WSection => WriterSection(c)
    case WUnlockFull => c.(lock := Free, wpc := WCheckDone)
    case WUnlockPut => c.(lock := Free, wpc := if c.wtotal == c.wlen then WFinish else WLoop)
    case WTestDone => WriterTest(c, c.done, RB_DONE, WCheckAbort)
    case WTestAbort => WriterTest(c, c.abortWrite, RB_ABORT, WWait)
    case WTake => c.(canWrite := false, wpc := WLoop)
    case WTimeout => c.(wpc := WFinish, wcode := RB_TIMEOUT)
    case WWake => c.(canRead := c.canRead || c.wtotal > 0, wpc := WReturn)
    case WLeave => c.(wpc := WIdle, wlen := 0, wtotal := 0, wcode := RB_OK)
    case GiveRead => c.(canRead := true)
    case GiveWrite => c.(canWrite := true)
    case SetDone => c.(done := true)
    case SetAbortRead => c.(abortRead := true)
    case SetAbortWrite => c.(abortWrite := true)
    case SetUnblock => c.(unblock := true)
  }

  // ---- Invariant ---------------------------------------------------------

  predicate ReaderHolds(pc: ReaderPc) {
    pc.RLocked? || pc.REmpty? || pc.RTook?
  }

  predicate WriterHolds(pc: WriterPc) {
    pc.WLocked? || pc.WFull? || pc.WPut?
  }

  /** The reader found nothing to take and has not yet gone back to the mutex. */
  predicate ReaderStarved(pc: ReaderPc) {
    pc.RCheckDone? || pc.RCheckAbort? || pc.RCheckUnblock? || pc.RWait?
  }

  predicate WriterStarved(pc: WriterPc) {
    pc.WCheckDone? || pc.WCheckAbort? || pc.WWait?
  }

  ghost predicate Mutex(c: Control) {
    && (c.lock.ByReader? <==> ReaderHolds(c.rpc))
    && (c.lock.ByWriter? <==> WriterHolds(c.wpc))
  }

  ghost predicate Calls(c: Control) {
    && c.fill <= c.size && c.rtotal <= c.rlen && c.wtotal <= c.wlen
    && (ReaderStarved(c.rpc) || c.rpc.RLocked? || c.rpc.REmpty? ==> c.rtotal < c.rlen)
    && (WriterStarved(c.wpc) || c.wpc.WLocked? || c.wpc.WFull? ==> c.wtotal < c.wlen)
    && (c.rpc.RIdle? ==> c.rtotal == 0) && (c.wpc.WIdle? ==> c.wtotal == 0)
  }

  /** Bytes moved by the current call for which the other side has not been woken. */
  function UnsignalledRead(c: Control): nat {
    if c.rpc.RReturn? then 0 else c.rtotal
  }

  function UnsignalledWrite(c: Control): nat {
    if c.wpc.WReturn? then 0 else c.wtotal
  }

  predicate NothingToTake(c: Control) {
    c.fill < 4 && c.fill + c.rtotal < c.rlen
  }

  /** Why a starved side is never forgotten: all that changed since it looked is what the other
      side moved in its current call. */
  ghost predicate WakeUps(c: Control) {
    && (c.rpc.REmpty? ==> NothingToTake(c) && c.since == 0)
    && (c.wpc.WFull? ==> c.fill == c.size)
    && (ReaderStarved(c.rpc) && !c.canRead ==> c.since <= UnsignalledWrite(c))
    && (WriterStarved(c.wpc) && !c.canWrite ==> c.size <= c.fill + UnsignalledRead(c))
    && (ReaderStarved(c.rpc) && WriterStarved(c.wpc) ==> c.fill == c.size || NothingToTake(c))
  }

  /** What a reader that starves or leaves with RB_DONE left behind when it last looked. */
  ghost predicate Drained(c: Control) {
    && c.fill == c.left + c.since
    && (c.rpc.REmpty? || ReaderStarved(c.rpc) || ((c.rpc.RFinish? || c.rpc.RReturn?) && c.rcode == RB_DONE) ==>
          c.left < 4 && c.left + c.rtotal < c.rlen)
    && c.rcode <= 0 && (c.rpc.RFinish? || c.rpc.RReturn? || c.rcode == RB_OK)
  }

  ghost predicate Inv(c: Control) {
    Mutex(c) && Calls(c) && WakeUps(c) && Drained(c)
  }

  lemma StartInv(c: Control)
    requires Start(c)
    ensures Inv(c)
  {
  }

  lemma ReaderSectionKeepsInv(c: Control)
    requires Inv(c) && c.rpc.RLocked?
    ensures Inv(ReaderSection(c))
  {
  }

  lemma WriterSectionKeepsInv(c: Control)
    requires Inv(c) && c.wpc.WLocked?
    ensures Inv(WriterSection(c))
  {
  }

  lemma ReaderLockKeepsInv(c: Control, a: Step)
    requires Inv(c) && Enabled(c, a)
    requires a.RStart? || a.RExit? || a.RAcquire? || a.RUnlockEmpty? || a.RUnlockTook?
    ensures Inv(Do(c, a))
  {
  }

  lemma ReaderTestKeepsInv(c: Control, a: Step)
    requires Inv(c) && Enabled(c, a)
    requires a.RTestDone? || a.RTestAbort? || a.RTestUnblock?
    ensures Inv(Do(c, a))
  {
  }

  lemma ReaderEndKeepsInv(c: Control, a: Step)
    requires Inv(c) && Enabled(c, a)
    requires a.RTake? || a.RTimeout? || a.RWake? || a.RLeave?
    ensures Inv(Do(c, a))
  {
  }

  lemma WriterLockKeepsInv(c: Control, a: Step)
    requires Inv(c) && Enabled(c, a)
    requires a.WStart? || a.WExit? || a.WAcquire? || a.WUnlockFull? || a.WUnlockPut?
    ensures Inv(Do(c, a))
  {
  }

  lemma WriterEndKeepsInv(c: Control, a: Step)
    requires Inv(c) && Enabled(c, a)
    requires a.WTestDone? || a.WTestAbort? || a.WTake? || a.WTimeout? || a.WWake? || a.WLeave?
    ensures Inv(Do(c, a))
  {
  }

  lemma OutsideKeepsInv(c: Control, a: Step)
    requires Inv(c)
    requires a.GiveRead? || a.GiveWrite? || a.SetDone? || a.SetAbortRead? || a.SetAbortWrite? || a.SetUnblock?
    ensures Inv(Do(c, a))
  {
  }

  /** Every action of either task, and every interference, keeps the invariant. */
  lemma StepKeepsInv(c: Control, a: Step)
    requires Inv(c) && Enabled(c, a)
    ensures Inv(Do(c, a))
  {
    match a
    case RSection => ReaderSectionKeepsInv(c);
    case WSection => WriterSectionKeepsInv(c);
    case RStart(_) => ReaderLockKeepsInv(c, a);
    case RExit => ReaderLockKeepsInv(c, a);
    case RAcquire => ReaderLockKeepsInv(c, a);
    case RUnlockEmpty => ReaderLockKeepsInv(c, a);
    case RUnlockTook => ReaderLockKeepsInv(c, a);
    case RTestDone => ReaderTestKeepsInv(c, a);
    case RTestAbort => ReaderTestKeepsInv(c, a);
    case RTestUnblock => ReaderTestKeepsInv(c, a);
    case RTake => ReaderEndKeepsInv(c, a);
    case RTimeout => ReaderEndKeepsInv(c, a);
    case RWake => ReaderEndKeepsInv(c, a);
    case RLeave => ReaderEndKeepsInv(c, a);
    case WStart(_) => WriterLockKeepsInv(c, a);
    case WExit => WriterLockKeepsInv(c, a);
    case WAcquire => WriterLockKeepsInv(c, a);
    case WUnlockFull => WriterLockKeepsInv(c, a);
    case WUnlockPut => WriterLockKeepsInv(c, a);
    case WTestDone => WriterEndKeepsInv(c, a);
    case WTestAbort => WriterEndKeepsInv(c, a);
    case WTake => WriterEndKeepsInv(c, a);
    case WTimeout => WriterEndKeepsInv(c, a);
    case WWake => WriterEndKeepsInv(c, a);
    case WLeave => WriterEndKeepsInv(c, a);
    case _ => OutsideKeepsInv(c, a);
  }
}
