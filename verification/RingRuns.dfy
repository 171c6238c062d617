/** Whole runs of the ring buffer protocol: with which lengths of calls the two tasks can put each
    other to sleep for good (components/audio_pipeline/ringbuf.c). */
module RingRuns {
  import opened Basics
  import opened RingCore
  import opened RingObject
  import opened RingControl

  /** `d` can be reached from `c` by the actions `run`, each enabled when taken. */
  ghost predicate Reaches(c: Control, run: seq<Step>, d: Control)
    decreases |run|
  {
    if run == [] then c == d
    else Enabled(c, run[0]) && Reaches(Do(c, run[0]), run[1..], d)
  }

  lemma {:induction false} RunKeepsInv(c: Control, run: seq<Step>, d: Control)
    requires Inv(c) && Reaches(c, run, d)
    ensures Inv(d) && d.size == c.size
    decreases |run|
  {
    if run != [] {
      StepKeepsInv(c, run[0]);
      RunKeepsInv(Do(c, run[0]), run[1..], d);
    }
  }

  /** No write of the run asks for more than w bytes and no read for more than r. */
  ghost predicate Within(run: seq<Step>, w: int, r: int) {
    && (forall i | 0 <= i < |run| && run[i].WStart? :: |run[i].data| <= w)
    && (forall i | 0 <= i < |run| && run[i].RStart? :: run[i].len <= r)
  }

  ghost predicate CallsWithin(c: Control, w: int, r: int) {
    (c.wlen == 0 || c.wlen <= w) && (c.rlen == 0 || c.rlen <= r)
  }

  lemma {:induction false} RunKeepsWithin(c: Control, run: seq<Step>, d: Control, w: int, r: int)
    requires Reaches(c, run, d) && Within(run, w, r) && CallsWithin(c, w, r)
    ensures CallsWithin(d, w, r)
    decreases |run|
  {
    if run != [] {
      assert run[0].WStart? ==> |run[0].data| <= w;
      assert run[0].RStart? ==> run[0].len <= r;
      RunKeepsWithin(Do(c, run[0]), run[1..], d, w, r);
    }
  }

  ghost predicate Stuck(c: Control) {
    c.rpc.RWait? && !c.canRead && c.wpc.WWait? && !c.canWrite
  }

  /** Some action of a task that is inside a call, other than a timeout, is enabled. */
  ghost predicate CanAdvance(c: Control) {
    exists a: Step ::
      && Enabled(c, a)
      && !a.RStart? && !a.WStart? && !a.RTimeout? && !a.WTimeout?
      && !a.GiveRead? && !a.GiveWrite? && !a.SetDone? && !a.SetAbortRead? && !a.SetAbortWrite? && !a.SetUnblock?
  }

  function AtMost3(n: int): int {
    if n < 3 then n else 3
  }

  /** The lengths with which both tasks can end up asleep: a read longer than the buffer, or a write
      that does not fit beside the bytes a reader may refuse to take. */
  predicate CanDeadlock(size: nat, w: int, r: int) {
    w >= 1 && r >= 1 && (r > size || w + AtMost3(r - 1) > size)
  }

  /** In a state where both sleep, the buffer is full of what the writer put since the reader
      looked, or the reader has emptied it without a wake-up. */
  lemma StuckNeedsLength(d: Control, w: int, r: int)
    requires Inv(d) && CallsWithin(d, w, r) && Stuck(d)
    ensures CanDeadlock(d.size, w, r)
  {
  }

  /** Deadlock freedom: with other lengths two tasks that wait forever are never both asleep, and
      whenever both are inside a call one of them can move. Writes of at most size-3 bytes with
      reads of at most size are such lengths (`ModerateLengths`). */
  lemma NoDeadlock(c: Control, run: seq<Step>, d: Control, w: int, r: int)
    requires Start(c) && Reaches(c, run, d) && Within(run, w, r) && !CanDeadlock(c.size, w, r)
    ensures !Stuck(d)
    ensures !d.rpc.RIdle? && !d.wpc.WIdle? ==> CanAdvance(d)
  {
    StartInv(c);
    RunKeepsInv(c, run, d);
    RunKeepsWithin(c, run, d, w, r);
    if Stuck(d) {
      StuckNeedsLength(d, w, r);
    }
    if !d.rpc.RIdle? && !d.wpc.WIdle? {
      OneCanAdvance(d);
    }
  }

  lemma ModerateLengths(size: nat)
    ensures !CanDeadlock(size, size - 3, size)
  {
  }

  lemma OneCanAdvance(c: Control)
    requires Inv(c) && !Stuck(c) && !c.rpc.RIdle? && !c.wpc.WIdle?
    ensures CanAdvance(c)
  {
    if c.wpc.WWait? && !c.canWrite {
      ReaderAdvances(c);
    } else if c.wpc.WLoop? && c.wtotal != c.wlen && !c.lock.Free? {
      ReaderAdvances(c);
    } else {
      WriterAdvances(c);
    }
  }

  lemma ReaderAdvances(c: Control)
    requires !c.rpc.RIdle? && (c.rpc.RLoop? ==> c.lock.Free?) && (c.rpc.RWait? ==> c.canRead)
    ensures CanAdvance(c)
  {
    match c.rpc
    case RLoop => assert if c.rtotal == c.rlen then Enabled(c, RExit) else Enabled(c, RAcquire);
    case RLocked => assert Enabled(c, RSection);
    case REmpty => assert Enabled(c, RUnlockEmpty);
    case RTook => assert Enabled(c, RUnlockTook);
    case RCheckDone => assert Enabled(c, RTestDone);
    case RCheckAbort => assert Enabled(c, RTestAbort);
    case RCheckUnblock => assert Enabled(c, RTestUnblock);
    case RWait => assert Enabled(c, RTake);
    case RFinish => assert Enabled(c, RWake);
    case RReturn => assert Enabled(c, RLeave);
  }

  lemma WriterAdvances(c: Control)
    requires !c.wpc.WIdle? && (c.wpc.WLoop? && c.wtotal != c.wlen ==> c.lock.Free?) && (c.wpc.WWait? ==> c.canWrite)
    ensures CanAdvance(c)
  {
    match c.wpc
    case WLoop => assert if c.wtotal == c.wlen then Enabled(c, WExit) else Enabled(c, WAcquire);
    case WLocked => assert Enabled(c, WSection);
    case WFull => assert Enabled(c, WUnlockFull);
    case WPut => assert Enabled(c, WUnlockPut);
    case WCheckDone => assert Enabled(c, WTestDone);
    case WCheckAbort => assert Enabled(c, WTestAbort);
    case WWait => assert Enabled(c, WTake);
    case WFinish => assert Enabled(c, WWake);
    case WReturn => assert Enabled(c, WLeave);
  }

  // ---- Longer calls do deadlock ----------------------------------------------

  lemma {:induction false} Extend(c: Control, run: seq<Step>, d: Control, a: Step)
    requires Reaches(c, run, d) && Enabled(d, a)
    ensures Reaches(c, run + [a], Do(d, a))
    decreases |run|
  {
    if run == [] {
      assert (run + [a])[1..] == [];
    } else {
      assert (run + [a])[1..] == run[1..] + [a];
      Extend(Do(c, run[0]), run[1..], d, a);
    }
  }

  /** `d` can be reached from `c` by a run with lengths within w and r. */
  ghost predicate Reachable(c: Control, d: Control, w: int, r: int) {
    exists run :: Within(run, w, r) && Reaches(c, run, d)
  }

  lemma Then(c: Control, d: Control, w: int, r: int, a: Step, e: Control)
    requires Reachable(c, d, w, r) && Enabled(d, a) && e == Do(d, a)
    requires (a.WStart? ==> |a.data| <= w) && (a.RStart? ==> a.len <= r)
    ensures Reachable(c, e, w, r)
  {
    var run :| Within(run, w, r) && Reaches(c, run, d);
    Extend(c, run, d, a);
    assert Within(run + [a], w, r);
  }

  /** Nothing but an ordinary pair of calls is going on. */
  ghost predicate Undisturbed(c: Control) {
    c.lock.Free? && !c.done && !c.abortRead && !c.abortWrite && !c.unblock
  }

  /** One section of n bytes. */
  lemma WriterAdds(c0: Control, c: Control, w: int, r: int, n: nat)
    requires Reachable(c0, c.(lock := ByWriter, wpc := WLocked), w, r)
    requires c.wtotal < c.wlen && c.fill < c.size && n == WriteSize(c.size - c.fill, c.wlen - c.wtotal)
    ensures Reachable(c0, Put(c, n).(lock := ByWriter, wpc := WPut), w, r)
  {
    Then(c0, c.(lock := ByWriter, wpc := WLocked), w, r, WSection, Put(c, n).(lock := ByWriter, wpc := WPut));
  }

  function Put(c: Control, n: nat): Control {
    c.(fill := c.fill + n, since := c.since + n, wtotal := c.wtotal + n)
  }

  function Released(c: Control): Control {
    c.(wpc := if c.wtotal == c.wlen then WFinish else WLoop)
  }

  /** Mutex, one section of n bytes, release. */
  lemma WriterPuts(c0: Control, c: Control, w: int, r: int, n: nat)
    requires Reachable(c0, c, w, r) && c.lock.Free? && c.wpc == WLoop
    requires c.wtotal < c.wlen && c.fill < c.size && n == WriteSize(c.size - c.fill, c.wlen - c.wtotal)
    ensures Reachable(c0, Released(Put(c, n)), w, r)
  {
    WriterLocks(c0, c, w, r);
    WriterAdds(c0, c, w, r, n);
    WriterReleases(c0, Put(c, n), w, r);
  }

  lemma WriterLocks(c0: Control, c: Control, w: int, r: int)
    requires Reachable(c0, c, w, r) && c.lock.Free? && c.wpc == WLoop && c.wtotal < c.wlen
    ensures Reachable(c0, c.(lock := ByWriter, wpc := WLocked), w, r)
  {
    Then(c0, c, w, r, WAcquire, c.(lock := ByWriter, wpc := WLocked));
  }

  lemma WriterReleases(c0: Control, c: Control, w: int, r: int)
    requires Reachable(c0, c.(lock := ByWriter, wpc := WPut), w, r) && c.lock.Free?
    ensures Reachable(c0, Released(c), w, r)
  {
    Then(c0, c.(lock := ByWriter, wpc := WPut), w, r, WUnlockPut, Released(c));
  }

  lemma WholeWrite(c0: Control, c: Control, w: int, r: int, data: seq<byte>)
    requires Reachable(c0, c, w, r) && Undisturbed(c)
    requires c.wpc == WIdle && c.wlen == 0 && c.wtotal == 0 && c.wcode == RB_OK
    requires 0 < |data| <= w && c.fill + |data| <= c.size
    ensures Reachable(c0, c.(fill := c.fill + |data|, since := c.since + |data|, canRead := true), w, r)
  {
    var n := |data|;
    WriterStarts(c0, c, w, r, data);
    WriterPuts(c0, Begun(c, n), w, r, n);
    WriterReturns(c0, Released(Put(Begun(c, n), n)), w, r);
    AllInOne(c, n);
  }

  function Begun(c: Control, n: nat): Control {
    c.(wpc := WLoop, wlen := n)
  }

  lemma WriterStarts(c0: Control, c: Control, w: int, r: int, data: seq<byte>)
    requires Reachable(c0, c, w, r) && |data| <= w
    requires c.wpc == WIdle && c.wtotal == 0 && c.wcode == RB_OK
    ensures Reachable(c0, Begun(c, |data|), w, r)
  {
    Then(c0, c, w, r, WStart(data), Begun(c, |data|));
  }

  lemma AllInOne(c: Control, n: nat)
    requires c.wpc == WIdle && c.wlen == 0 && c.wtotal == 0 && c.wcode == RB_OK
    ensures Released(Put(Begun(c, n), n)).(canRead := true, wpc := WIdle, wlen := 0, wtotal := 0, wcode := RB_OK) ==
            c.(fill := c.fill + n, since := c.since + n, canRead := true)
  {
  }

  /** The wake-up and the return of a write that put something. */
  lemma WriterReturns(c0: Control, c: Control, w: int, r: int)
    requires Reachable(c0, c, w, r) && c.wpc == WFinish && c.wtotal > 0
    ensures Reachable(c0, c.(canRead := true, wpc := WIdle, wlen := 0, wtotal := 0, wcode := RB_OK), w, r)
  {
    var c1 := c.(canRead := true, wpc := WReturn);
    Then(c0, c, w, r, WWake, c1);
    Then(c0, c1, w, r, WLeave, c1.(wpc := WIdle, wlen := 0, wtotal := 0, wcode := RB_OK));
  }

  /** Mutex, an empty section, release. */
  lemma ReaderLooks(c0: Control, c: Control, w: int, r: int)
    requires Reachable(c0, c, w, r) && c.lock.Free?
    requires c.rpc == RLoop && c.rtotal <= c.rlen && NothingToTake(c)
    ensures Reachable(c0, c.(rpc := RCheckDone, left := c.fill, since := 0), w, r)
  {
    var c1 := c.(lock := ByReader, rpc := RLocked);
    var c2 := c1.(rpc := REmpty, left := c.fill, since := 0);
    Then(c0, c, w, r, RAcquire, c1);
    Then(c0, c1, w, r, RSection, c2);
    Then(c0, c2, w, r, RUnlockEmpty, c.(rpc := RCheckDone, left := c.fill, since := 0));
  }

  lemma ReaderFallsAsleep(c0: Control, c: Control, w: int, r: int)
    requires Reachable(c0, c, w, r) && Undisturbed(c)
    requires c.rpc == RLoop && c.rtotal <= c.rlen && NothingToTake(c)
    ensures Reachable(c0, c.(rpc := RWait, left := c.fill, since := 0), w, r)
  {
    ReaderLooks(c0, c, w, r);
    var c1 := c.(rpc := RCheckDone, left := c.fill, since := 0);
    var c2 := c1.(rpc := RCheckAbort);
    var c3 := c1.(rpc := RCheckUnblock);
    Then(c0, c1, w, r, RTestDone, c2);
    Then(c0, c2, w, r, RTestAbort, c3);
    Then(c0, c3, w, r, RTestUnblock, c1.(rpc := RWait));
  }

  lemma WriterFallsAsleep(c0: Control, c: Control, w: int, r: int)
    requires Reachable(c0, c, w, r) && Undisturbed(c)
    requires c.wpc == WLoop && c.wtotal < c.wlen && c.fill == c.size
    ensures Reachable(c0, c.(wpc := WWait), w, r)
  {
    var c1 := c.(lock := ByWriter, wpc := WLocked);
    var c2 := c1.(wpc := WFull);
    var c3 := c2.(lock := Free, wpc := WCheckDone);
    var c4 := c3.(wpc := WCheckAbort);
    Then(c0, c, w, r, WAcquire, c1);
    Then(c0, c1, w, r, WSection, c2);
    Then(c0, c2, w, r, WUnlockFull, c3);
    Then(c0, c3, w, r, WTestDone, c4);
    Then(c0, c4, w, r, WTestAbort, c.(wpc := WWait));
  }

  /** A pending wake-up only makes the reader look a second time. */
  lemma ReaderFallsAsleepForGood(c0: Control, c: Control, w: int, r: int)
    requires Reachable(c0, c, w, r) && Undisturbed(c)
    requires c.rpc == RLoop && c.rtotal <= c.rlen && NothingToTake(c)
    ensures Reachable(c0, c.(rpc := RWait, left := c.fill, since := 0, canRead := false), w, r)
  {
    ReaderFallsAsleep(c0, c, w, r);
    if c.canRead {
      var c1 := c.(rpc := RWait, left := c.fill, since := 0);
      var c2 := c1.(canRead := false, rpc := RLoop);
      Then(c0, c1, w, r, RTake, c2);
      ReaderFallsAsleep(c0, c2, w, r);
    }
  }

  /** n bytes arrive by writes of one byte each. */
  lemma {:induction false} ByteWrites(c0: Control, c: Control, w: int, r: int, n: nat)
    requires Reachable(c0, c, w, r) && Undisturbed(c) && w >= 1
    requires c.wpc == WIdle && c.wlen == 0 && c.wtotal == 0 && c.wcode == RB_OK
    requires c.fill + n <= c.size
    ensures Reachable(c0, c.(fill := c.fill + n, since := c.since + n, canRead := c.canRead || n > 0), w, r)
    decreases n
  {
    if n > 0 {
      WholeWrite(c0, c, w, r, [0]);
      ByteWrites(c0, c.(fill := c.fill + 1, since := c.since + 1, canRead := true), w, r, n - 1);
    }
  }

  /** A few bytes wait for a reader that wants one more, while the writer fills the buffer inside
      one call. */
  lemma LongWriteDeadlocks(c: Control, w: int, r: int)
    requires Start(c) && r >= 1 && AtMost3(r - 1) < c.size < w + AtMost3(r - 1)
    ensures exists d :: Reachable(c, d, w, r) && Stuck(d)
  {
    var k := AtMost3(r - 1);
    assert Within([], w, r) && Reaches(c, [], c);
    ByteWrites(c, c, w, r, k);
    var c1 := c.(fill := k, since := k, canRead := k > 0);
    var c2 := c1.(rpc := RLoop, rlen := k + 1);
    Then(c, c1, w, r, RStart(k + 1), c2);
    ReaderFallsAsleepForGood(c, c2, w, r);
    var c3 := c2.(rpc := RWait, left := k, since := 0, canRead := false);
    WriterFillsUp(c, c3, w, r);
  }

  /** The writer puts all there is room for in a call that wants one byte more. */
  lemma WriterFillsUp(c0: Control, c: Control, w: int, r: int)
    requires Reachable(c0, c, w, r) && Undisturbed(c) && c.fill < c.size && c.size - c.fill < w
    requires c.wpc == WIdle && c.wlen == 0 && c.wtotal == 0 && c.wcode == RB_OK && !c.canWrite
    requires c.rpc == RWait && !c.canRead
    ensures exists d :: Reachable(c0, d, w, r) && Stuck(d)
  {
    var n := c.size - c.fill;
    var data := seq(n + 1, _ => 0);
    var c1 := c.(wpc := WLoop, wlen := n + 1);
    Then(c0, c, w, r, WStart(data), c1);
    WriterPuts(c0, c1, w, r, n);
    var c2 := c1.(fill := c.size, since := c.since + n, wtotal := n);
    WriterFallsAsleep(c0, c2, w, r);
    assert Stuck(c2.(wpc := WWait));
  }

  /** The reader takes the whole words of a full buffer inside one call that wants more. */
  lemma ReaderTakesWords(c0: Control, c: Control, w: int, r: int)
    requires Reachable(c0, c, w, r) && c.lock.Free? && c.rpc == RLoop && c.rtotal == 0
    requires c.fill == c.size && c.rlen == c.size + 1 && Words(c.size) > 0
    ensures var n := 4 * Words(c.size);
            Reachable(c0, c.(fill := c.size - n, rtotal := n, left := c.size - n, since := 0), w, r)
  {
    var n := 4 * Words(c.size);
    var c1 := c.(lock := ByReader, rpc := RLocked);
    Then(c0, c, w, r, RAcquire, c1);
    var c2 := c1.(fill := c.size - n, rtotal := n, rpc := RTook, left := c.size - n, since := 0);
    ReaderTakes(c0, c1, w, r);
    ReaderReleases(c0, c2, w, r);
    assert c2.(lock := Free, rpc := RLoop) == c.(fill := c.size - n, rtotal := n, left := c.size - n, since := 0);
  }

  lemma ReaderTakes(c0: Control, c: Control, w: int, r: int)
    requires Reachable(c0, c, w, r) && c.rpc == RLocked
    requires c.rtotal == 0 && c.fill == c.size && c.rlen == c.size + 1 && Words(c.size) > 0
    ensures var n := 4 * Words(c.size);
            n <= c.size && Reachable(c0, c.(fill := c.size - n, rtotal := n, rpc := RTook, left := c.size - n, since := 0), w, r)
  {
    SectionTakesWords(c);
    Then(c0, c, w, r, RSection, ReaderSection(c));
  }

  lemma ReaderReleases(c0: Control, c: Control, w: int, r: int)
    requires Reachable(c0, c, w, r) && c.rpc == RTook && c.rtotal != c.rlen
    ensures Reachable(c0, c.(lock := Free, rpc := RLoop), w, r)
  {
    Then(c0, c, w, r, RUnlockTook, c.(lock := Free, rpc := RLoop));
  }

  lemma SectionTakesWords(c: Control)
    requires c.rtotal == 0 && c.fill == c.size && c.rlen == c.size + 1 && Words(c.size) > 0
    ensures var n := 4 * Words(c.size);
            0 < n <= c.size &&
            ReaderSection(c) == c.(fill := c.size - n, rtotal := n, rpc := RTook, left := c.size - n, since := 0)
  {
  }

  /** The reader empties a full buffer inside one call, and the writer is not told. */
  lemma LongReadDeadlocks(c: Control, w: int, r: int)
    requires Start(c) && w >= 1 && r > c.size
    ensures exists d :: Reachable(c, d, w, r) && Stuck(d)
  {
    assert Within([], w, r) && Reaches(c, [], c);
    ByteWrites(c, c, w, r, c.size);
    var c1 := c.(fill := c.size, since := c.size, canRead := c.size > 0);
    var c2 := c1.(wpc := WLoop, wlen := 1);
    Then(c, c1, w, r, WStart([0]), c2);
    WriterFallsAsleep(c, c2, w, r);
    var c3 := c2.(wpc := WWait);
    var c4 := c3.(rpc := RLoop, rlen := c.size + 1);
    Then(c, c3, w, r, RStart(c.size + 1), c4);
    ReaderEmptiesBuffer(c, c4, w, r);
  }

  lemma ReaderEmptiesBuffer(c0: Control, c: Control, w: int, r: int)
    requires Reachable(c0, c, w, r) && Undisturbed(c) && c.rpc == RLoop && c.rtotal == 0
    requires c.fill == c.size && c.rlen == c.size + 1 && c.wpc == WWait && !c.canWrite
    ensures exists d :: Reachable(c0, d, w, r) && Stuck(d)
  {
    var n := 4 * Words(c.size);
    if n == 0 {
      ReaderFallsAsleepForGood(c0, c, w, r);
      assert Stuck(c.(rpc := RWait, left := c.fill, since := 0, canRead := false));
    } else {
      ReaderTakesWords(c0, c, w, r);
      var c1 := c.(fill := c.size - n, rtotal := n, left := c.size - n, since := 0);
      ReaderFallsAsleepForGood(c0, c1, w, r);
      assert Stuck(c1.(rpc := RWait, left := c1.fill, since := 0, canRead := false));
    }
  }

  /** For every size and all bounds on the lengths: both tasks can fall asleep for good if and only
      if the bounds admit such lengths. */
  lemma DeadlockExactly(c: Control, w: int, r: int)
    requires Start(c)
    ensures (exists d :: Reachable(c, d, w, r) && Stuck(d)) <==> CanDeadlock(c.size, w, r)
  {
    if CanDeadlock(c.size, w, r) {
      if r > c.size {
        LongReadDeadlocks(c, w, r);
      } else {
        LongWriteDeadlocks(c, w, r);
      }
    } else {
      forall d | Reachable(c, d, w, r)
        ensures !Stuck(d)
      {
        var run :| Within(run, w, r) && Reaches(c, run, d);
        NoDeadlock(c, run, d, w, r);
      }
    }
  }
}
