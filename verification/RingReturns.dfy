/** What rb_read and rb_write return in every interleaved run, in terms of the bytes the call moved
    and the flags it met (components/audio_pipeline/ringbuf.c). */
module RingReturns {
  import opened Basics
  import opened RingCore
  import opened RingObject
  import opened RingControl
  import opened RingRuns
  import opened RingFifo

  // ---- How calls end -----------------------------------------------------

  /** A call leaves with a code of its own exactly when it is incomplete. */
  ghost predicate Codes(c: Control) {
    && (if c.rpc.RFinish? || c.rpc.RReturn? then c.rcode == RB_OK <==> c.rtotal == c.rlen else c.rcode == RB_OK)
    && (if c.wpc.WFinish? || c.wpc.WReturn? then c.wcode == RB_OK <==> c.wtotal == c.wlen else c.wcode == RB_OK)
  }

  lemma ReaderKeepsCodes(c: Control, a: Step)
    requires Inv(c) && Codes(c) && Enabled(c, a)
    requires a.RStart? || a.RExit? || a.RAcquire? || a.RUnlockEmpty? || a.RUnlockTook? || a.RTestDone? || a.RTestAbort?
          || a.RTestUnblock? || a.RTake? || a.RTimeout? || a.RWake? || a.RLeave?
    ensures Codes(Do(c, a))
  {
  }

  lemma WriterKeepsCodes(c: Control, a: Step)
    requires Inv(c) && Codes(c) && Enabled(c, a)
    requires a.WStart? || a.WExit? || a.WAcquire? || a.WUnlockFull? || a.WUnlockPut? || a.WTestDone? || a.WTestAbort?
          || a.WTake? || a.WTimeout? || a.WWake? || a.WLeave?
    ensures Codes(Do(c, a))
  {
  }

  lemma SectionsKeepCodes(c: Control)
    requires Inv(c) && Codes(c)
    ensures c.rpc.RLocked? ==> Codes(ReaderSection(c))
    ensures c.wpc.WLocked? ==> Codes(WriterSection(c))
  {
  }

  lemma StepKeepsCodes(c: Control, a: Step)
    requires Inv(c) && Codes(c) && Enabled(c, a)
    ensures Codes(Do(c, a))
  {
    if a.RSection? || a.WSection? {
      SectionsKeepCodes(c);
    } else if a.RStart? || a.RExit? || a.RAcquire? || a.RUnlockEmpty? || a.RUnlockTook? || a.RTestDone? || a.RTestAbort?
           || a.RTestUnblock? || a.RTake? || a.RTimeout? || a.RWake? || a.RLeave? {
      ReaderKeepsCodes(c, a);
    } else if a.WStart? || a.WExit? || a.WAcquire? || a.WUnlockFull? || a.WUnlockPut? || a.WTestDone? || a.WTestAbort?
           || a.WTake? || a.WTimeout? || a.WWake? || a.WLeave? {
      WriterKeepsCodes(c, a);
    }
  }

  lemma {:induction false} RunKeepsCodes(c: Control, run: seq<Step>, d: Control)
    requires Inv(c) && Codes(c) && Reaches(c, run, d)
    ensures Codes(d)
    decreases |run|
  {
    if run != [] {
      StepKeepsInv(c, run[0]);
      StepKeepsCodes(c, run[0]);
      RunKeepsCodes(Do(c, run[0]), run[1..], d);
    }
  }

  // ---- One call of the reader --------------------------------------------

  /** The run stays within one call of the reader. */
  ghost predicate OneRead(run: seq<Step>) {
    forall i | 0 <= i < |run| :: !run[i].RStart? && !run[i].RLeave?
  }

  /** The code the call has met: RB_DONE, -2, at a test that finds the done flag up; RB_ABORT, -3, at
      one that finds the abort flag up; RB_TIMEOUT, -4, when it is unblocked or waited in vain. */
  ghost function MetByRead(c: Control, run: seq<Step>, met: int): int
    decreases |run|
  {
    if run == [] then met
    else
      MetByRead(Do(c, run[0]), run[1..],
        if run[0].RTestDone? && c.done then -2
        else if run[0].RTestAbort? && c.abortRead then -3
        else if (run[0].RTestUnblock? && c.unblock) || run[0].RTimeout? then -4
        else met)
  }

  lemma ReadCodeStep(c: Control, a: Step)
    requires !a.RStart? && !a.RLeave?
    ensures Do(c, a).rcode ==
      if a.RTestDone? && c.done then -2
      else if a.RTestAbort? && c.abortRead then -3
      else if (a.RTestUnblock? && c.unblock) || a.RTimeout? then -4
      else c.rcode
  {
  }

  lemma {:induction false} ReadCode(c: Control, run: seq<Step>, d: Control)
    requires Reaches(c, run, d) && OneRead(run)
    ensures d.rcode == MetByRead(c, run, c.rcode) && d.rlen == c.rlen
    decreases |run|
  {
    if run != [] {
      assert !run[0].RStart? && !run[0].RLeave?;
      ReadCodeStep(c, run[0]);
      ReadCode(Do(c, run[0]), run[1..], d);
    }
  }

  lemma ActReads(s: State, a: Step)
    requires Coupled(s) && Inv(s.ctl) && !a.RStart? && !a.RLeave?
    ensures var t := Act(s, a);
            s.delivered <= t.delivered && |t.delivered| - |s.delivered| == t.ctl.rtotal - s.ctl.rtotal
  {
    if a.RSection? {
      var n := Taking(s.ctl);
      assert |CopyOut(s.core, n)| == n;
      assert Act(s, a) == AfterRead(s);
    } else {
      assert Act(s, a).delivered == s.delivered;
      assert Act(s, a).ctl.rtotal == s.ctl.rtotal;
    }
  }

  /** What a call has delivered is what it has counted. */
  lemma {:induction false} ReadMoves(s: State, run: seq<Step>, t: State)
    requires Coupled(s) && Inv(s.ctl) && Runs(s, run, t) && OneRead(run)
    ensures s.delivered <= t.delivered && |t.delivered| - |s.delivered| == t.ctl.rtotal - s.ctl.rtotal
    decreases |run|
  {
    if run != [] {
      assert !run[0].RStart? && !run[0].RLeave?;
      ActReads(s, run[0]);
      ActKeepsCoupled(s, run[0]);
      StepKeepsInv(s.ctl, run[0]);
      ReadMoves(Act(s, run[0]), run[1..], t);
    }
  }

  /** For every read of every run, from its start to its return: the value returned is the number of
      bytes this call delivered, if all were delivered or some were and no abort was met; RB_ABORT if
      one was met, whatever was delivered; and RB_DONE or RB_TIMEOUT, whichever was met, only if
      nothing was delivered. */
  lemma ReadReturns(s: State, before: seq<Step>, s1: State, len: nat, run: seq<Step>, t: State)
    requires Fresh(s) && Runs(s, before, s1) && Enabled(s1.ctl, RStart(len))
    requires Runs(Act(s1, RStart(len)), run, t) && OneRead(run) && t.ctl.rpc.RReturn?
    ensures s1.delivered <= t.delivered
    ensures var ret := CallResult(t.ctl.rtotal, t.ctl.rcode);
            var moved := |t.delivered| - |s1.delivered|;
            var met := MetByRead(Do(s1.ctl, RStart(len)), run, 0);
            && met in {0, -2, -3, -4} && (met == 0 <==> moved == len) && moved <= len
            && ret == if met == -3 then -3 else if moved > 0 then moved else met
  {
    var c0 := s.ctl;
    StartInv(c0);
    RunKeepsCoupled(s, before, s1);
    RunProjects(s, before, s1);
    RunKeepsCodes(c0, before, s1.ctl);
    var s2 := Act(s1, RStart(len));
    ActKeepsCoupled(s1, RStart(len));
    StepKeepsInv(s1.ctl, RStart(len));
    StepKeepsCodes(s1.ctl, RStart(len));
    assert s2.ctl == Do(s1.ctl, RStart(len)) && s2.delivered == s1.delivered && s2.ctl.rtotal == 0 && s2.ctl.rlen == len;
    RunProjects(s2, run, t);
    RunKeepsCodes(s2.ctl, run, t.ctl);
    RunKeepsInv(s2.ctl, run, t.ctl);
    ReadMoves(s2, run, t);
    ReadCode(s2.ctl, run, t.ctl);
    ReadMet(s2.ctl, run, 0);
  }

  lemma {:induction false} ReadMet(c: Control, run: seq<Step>, met: int)
    requires met in {0, -2, -3, -4}
    ensures MetByRead(c, run, met) in {0, -2, -3, -4}
    decreases |run|
  {
    if run != [] {
      ReadMet(Do(c, run[0]), run[1..], met);
      ReadMet(Do(c, run[0]), run[1..], -2);
      ReadMet(Do(c, run[0]), run[1..], -3);
      ReadMet(Do(c, run[0]), run[1..], -4);
    }
  }

  // ---- One call of the writer --------------------------------------------

  ghost predicate OneWrite(run: seq<Step>) {
    forall i | 0 <= i < |run| :: !run[i].WStart? && !run[i].WLeave?
  }

  ghost function MetByWrite(c: Control, run: seq<Step>, met: int): int
    decreases |run|
  {
    if run == [] then met
    else
      MetByWrite(Do(c, run[0]), run[1..],
        if run[0].WTestDone? && c.done then -2
        else if run[0].WTestAbort? && c.abortWrite then -3
        else if run[0].WTimeout? then -4
        else met)
  }

  lemma WriteCodeStep(c: Control, a: Step)
    requires !a.WStart? && !a.WLeave?
    ensures Do(c, a).wcode ==
      if a.WTestDone? && c.done then -2
      else if a.WTestAbort? && c.abortWrite then -3
      else if a.WTimeout? then -4
      else c.wcode
  {
  }

  lemma {:induction false} WriteCode(c: Control, run: seq<Step>, d: Control)
    requires Reaches(c, run, d) && OneWrite(run)
    ensures d.wcode == MetByWrite(c, run, c.wcode) && d.wlen == c.wlen
    decreases |run|
  {
    if run != [] {
      assert !run[0].WStart? && !run[0].WLeave?;
      WriteCodeStep(c, run[0]);
      WriteCode(Do(c, run[0]), run[1..], d);
    }
  }

  /** From s to t the part of the data between the two counts has been stored, in order. */
  ghost predicate Stored(s: State, t: State) {
    && t.data == s.data && s.ctl.wtotal <= t.ctl.wtotal <= |s.data|
    && t.written == s.written + s.data[s.ctl.wtotal..t.ctl.wtotal]
  }

  lemma StoredTrans(s: State, s1: State, t: State)
    requires Stored(s, s1) && Stored(s1, t)
    ensures Stored(s, t)
  {
    assert s.data[s.ctl.wtotal..s1.ctl.wtotal] + s.data[s1.ctl.wtotal..t.ctl.wtotal] == s.data[s.ctl.wtotal..t.ctl.wtotal];
  }

  lemma ActWrites(s: State, a: Step)
    requires Coupled(s) && Inv(s.ctl) && !a.WStart? && !a.WLeave?
    ensures Stored(s, Act(s, a))
  {
    if a.WSection? {
      assert Act(s, a) == AfterWrite(s);
      assert Incoming(s) == s.data[s.ctl.wtotal..s.ctl.wtotal + Adding(s.ctl)];
    } else {
      assert Act(s, a).written == s.written && Act(s, a).data == s.data;
      assert Act(s, a).ctl.wtotal == s.ctl.wtotal;
    }
  }

  /** What a call has stored is the part of its data that it has counted. */
  lemma {:induction false} WriteMoves(s: State, run: seq<Step>, t: State)
    requires Coupled(s) && Inv(s.ctl) && Runs(s, run, t) && OneWrite(run)
    ensures Stored(s, t)
    decreases |run|
  {
    if run == [] {
      StoredSelf(s);
    } else {
      assert !run[0].WStart? && !run[0].WLeave?;
      ActWrites(s, run[0]);
      ActKeepsCoupled(s, run[0]);
      StepKeepsInv(s.ctl, run[0]);
      WriteMoves(Act(s, run[0]), run[1..], t);
      StoredTrans(s, Act(s, run[0]), t);
    }
  }

  lemma StoredSelf(s: State)
    requires Coupled(s) && Inv(s.ctl)
    ensures Stored(s, s)
  {
  }

  lemma {:induction false} WriteMet(c: Control, run: seq<Step>, met: int)
    requires met in {0, -2, -3, -4}
    ensures MetByWrite(c, run, met) in {0, -2, -3, -4}
    decreases |run|
  {
    if run != [] {
      WriteMet(Do(c, run[0]), run[1..], met);
      WriteMet(Do(c, run[0]), run[1..], -2);
      WriteMet(Do(c, run[0]), run[1..], -3);
      WriteMet(Do(c, run[0]), run[1..], -4);
    }
  }

  /** The same for every write: it stores a prefix of its data, in order, and what it returns says how
      long a prefix, or why there is none, or that the call was aborted. */
  lemma WriteReturns(s: State, before: seq<Step>, s1: State, data: seq<byte>, run: seq<Step>, t: State)
    requires Fresh(s) && Runs(s, before, s1) && Enabled(s1.ctl, WStart(data))
    requires Runs(Act(s1, WStart(data)), run, t) && OneWrite(run) && t.ctl.wpc.WReturn?
    ensures var ret := CallResult(t.ctl.wtotal, t.ctl.wcode);
            var moved := t.ctl.wtotal;
            var met := MetByWrite(Do(s1.ctl, WStart(data)), run, 0);
            && moved <= |data| && t.written == s1.written + data[..moved]
            && met in {0, -2, -3, -4} && (met == 0 <==> moved == |data|)
            && ret == if met == -3 then -3 else if moved > 0 then moved else met
  {
    var c0 := s.ctl;
    StartInv(c0);
    RunKeepsCoupled(s, before, s1);
    RunProjects(s, before, s1);
    RunKeepsCodes(c0, before, s1.ctl);
    var s2 := Act(s1, WStart(data));
    ActKeepsCoupled(s1, WStart(data));
    StepKeepsInv(s1.ctl, WStart(data));
    StepKeepsCodes(s1.ctl, WStart(data));
    assert s2.ctl == Do(s1.ctl, WStart(data)) && s2.written == s1.written && s2.data == data && s2.ctl.wtotal == 0;
    RunProjects(s2, run, t);
    RunKeepsCodes(s2.ctl, run, t.ctl);
    RunKeepsInv(s2.ctl, run, t.ctl);
    WriteMoves(s2, run, t);
    WriteCode(s2.ctl, run, t.ctl);
    WriteMet(s2.ctl, run, 0);
  }
}
