/** The bytes of a run: delivery order, short reads and what RB_DONE promises
    (components/audio_pipeline/ringbuf.c). */
module RingFifo {
  import opened Basics
  import opened RingCore
  import opened RingObject
  import opened RingControl
  import opened RingRuns

  /** Control, the buffer itself, the bytes of the write in progress, and every byte that has
      entered and left the buffer so far. */
  datatype State = State(ctl: Control, core: Core, data: seq<byte>, written: seq<byte>, delivered: seq<byte>)

  ghost predicate Fresh(s: State) {
    && Start(s.ctl) && s.core.Valid() && s.core.fill == 0 && s.core.Size() == s.ctl.size
    && s.data == [] && s.written == [] && s.delivered == []
  }

  /** What was written is what was delivered followed by what the buffer holds. */
  ghost predicate Fifo(core: Core, written: seq<byte>, delivered: seq<byte>) {
    && core.Valid()
    && |written| == |delivered| + core.fill
    && delivered == written[..|delivered|]
    && core.Contents() == written[|delivered|..]
  }

  ghost predicate Coupled(s: State) {
    && Fifo(s.core, s.written, s.delivered)
    && s.core.Size() == s.ctl.size && s.core.fill == s.ctl.fill && |s.data| == s.ctl.wlen
  }

  ghost function AfterRead(s: State): State
    requires Coupled(s) && Inv(s.ctl)
  {
    var n := Taking(s.ctl);
    s.(ctl := ReaderSection(s.ctl), core := Pop(s.core, n), delivered := s.delivered + CopyOut(s.core, n))
  }

  /** The bytes that the writer's section stores. */
  ghost function Incoming(s: State): (d: seq<byte>)
    requires Coupled(s) && Inv(s.ctl)
    ensures |d| == Adding(s.ctl) <= s.core.Size() - s.core.fill
  {
    s.data[s.ctl.wtotal..s.ctl.wtotal + Adding(s.ctl)]
  }

  ghost function AfterWrite(s: State): State
    requires Coupled(s) && Inv(s.ctl)
  {
    s.(ctl := WriterSection(s.ctl), core := Push(s.core, Incoming(s)), written := s.written + Incoming(s))
  }

  /** The effect of an action. A state that is not `Coupled` would index outside the buffer; no
      run gets there (RunKeepsCoupled), so what is written for that case does not matter. */
  ghost function Act(s: State, a: Step): State {
    var c := Do(s.ctl, a);
    if !(Coupled(s) && Inv(s.ctl)) then s.(ctl := c)
    else match a
      case RSection => AfterRead(s)
      case WSection => AfterWrite(s)
      case WStart(data) => s.(ctl := c, data := data)
      case WLeave => s.(ctl := c, data := [])
      case _ => s.(ctl := c)
  }

  ghost predicate Runs(s: State, run: seq<Step>, t: State)
    decreases |run|
  {
    if run == [] then s == t
    else Enabled(s.ctl, run[0]) && Runs(Act(s, run[0]), run[1..], t)
  }

  /** The control part of a run is a control run. */
  lemma {:induction false} RunProjects(s: State, run: seq<Step>, t: State)
    requires Runs(s, run, t)
    ensures Reaches(s.ctl, run, t.ctl)
    decreases |run|
  {
    if run != [] {
      assert Act(s, run[0]).ctl == Do(s.ctl, run[0]);
      RunProjects(Act(s, run[0]), run[1..], t);
    }
  }

  lemma FifoAfterRead(c: Core, q: seq<byte>, out: seq<byte>, n: nat)
    requires Fifo(c, q, out) && n <= c.fill
    ensures Fifo(Pop(c, n), q, out + CopyOut(c, n))
  {
    PopIsDequeue(c, n);
    var k := |out|;
    assert q[k..][..n] == q[k..k + n] && q[k..][n..] == q[k + n..];
    assert q[..k] + q[k..k + n] == q[..k + n];
  }

  lemma FifoAfterWrite(c: Core, q: seq<byte>, out: seq<byte>, d: seq<byte>)
    requires Fifo(c, q, out) && |d| <= c.Size() - c.fill
    ensures Fifo(Push(c, d), q + d, out)
  {
    PushIsEnqueue(c, d);
    var k := |out|;
    assert (q + d)[k..] == q[k..] + d;
    assert (q + d)[..k] == q[..k];
  }

  lemma ReadKeepsCoupled(s: State)
    requires Coupled(s) && Inv(s.ctl)
    ensures Coupled(AfterRead(s))
  {
    FifoAfterRead(s.core, s.written, s.delivered, Taking(s.ctl));
  }

  lemma CoupledAfterWrite(s: State, c: Control, d: seq<byte>)
    requires Coupled(s) && |d| <= s.core.Size() - s.core.fill
    requires c.size == s.ctl.size && c.fill == s.ctl.fill + |d| && c.wlen == s.ctl.wlen
    ensures Coupled(State(c, Push(s.core, d), s.data, s.written + d, s.delivered))
  {
    FifoAfterWrite(s.core, s.written, s.delivered, d);
  }

  lemma WriteKeepsCoupled(s: State)
    requires Coupled(s) && Inv(s.ctl)
    ensures Coupled(AfterWrite(s))
  {
    CoupledAfterWrite(s, WriterSection(s.ctl), Incoming(s));
  }

  lemma ActKeepsCoupled(s: State, a: Step)
    requires Coupled(s) && Inv(s.ctl) && Enabled(s.ctl, a)
    ensures Coupled(Act(s, a))
  {
    if a.RSection? {
      ReadKeepsCoupled(s);
    } else if a.WSection? {
      WriteKeepsCoupled(s);
    } else {
      assert Act(s, a).core == s.core && Act(s, a).written == s.written && Act(s, a).delivered == s.delivered;
    }
  }

  lemma {:induction false} RunKeepsCoupled(s: State, run: seq<Step>, t: State)
    requires Coupled(s) && Inv(s.ctl) && Runs(s, run, t)
    ensures Coupled(t) && Inv(t.ctl)
    decreases |run|
  {
    if run != [] {
      ActKeepsCoupled(s, run[0]);
      StepKeepsInv(s.ctl, run[0]);
      RunKeepsCoupled(Act(s, run[0]), run[1..], t);
    }
  }

  /** In every interleaving the bytes delivered, followed by those in the buffer, are the bytes
      written, in order; the fill count stays within the buffer and the write cursor is the read
      cursor advanced by it, modulo the size. */
  lemma FifoInEveryRun(s: State, run: seq<Step>, t: State)
    requires Fresh(s) && Runs(s, run, t)
    ensures t.core.Valid() && t.core.Size() == s.core.Size()
    ensures t.written == t.delivered + t.core.Contents()
    ensures t.core.fill <= t.core.Size() && Congruent(t.core.pw, t.core.pr + t.core.fill, t.core.Size())
  {
    StartInv(s.ctl);
    RunKeepsCoupled(s, run, t);
    RunKeepsSize(s, run, t);
    FifoIsWhole(t.core, t.written, t.delivered);
  }

  lemma {:induction false} RunKeepsSize(s: State, run: seq<Step>, t: State)
    requires Runs(s, run, t)
    ensures t.ctl.size == s.ctl.size
    decreases |run|
  {
    if run != [] {
      assert Act(s, run[0]).ctl == Do(s.ctl, run[0]);
      RunKeepsSize(Act(s, run[0]), run[1..], t);
    }
  }

  lemma FifoIsWhole(core: Core, written: seq<byte>, delivered: seq<byte>)
    requires Fifo(core, written, delivered)
    ensures written == delivered + core.Contents()
    ensures core.fill <= core.Size() && Congruent(core.pw, core.pr + core.fill, core.Size())
  {
    assert written == written[..|delivered|] + written[|delivered|..];
  }

  // ---- Whole words -------------------------------------------------------

  ghost predicate InWords(c: Control) {
    c.rtotal % 4 == 0 || c.rtotal == c.rlen
  }

  lemma StepKeepsWords(c: Control, a: Step)
    requires Inv(c) && InWords(c) && Enabled(c, a)
    ensures InWords(Do(c, a))
  {
    if a.RSection? {
      SectionKeepsWords(c);
    }
  }

  lemma SectionKeepsWords(c: Control)
    requires Inv(c) && InWords(c) && c.rpc.RLocked?
    ensures InWords(ReaderSection(c))
  {
  }

  lemma {:induction false} RunKeepsWords(c: Control, run: seq<Step>, d: Control)
    requires Inv(c) && InWords(c) && Reaches(c, run, d)
    ensures InWords(d)
    decreases |run|
  {
    if run != [] {
      StepKeepsInv(c, run[0]);
      StepKeepsWords(c, run[0]);
      RunKeepsWords(Do(c, run[0]), run[1..], d);
    }
  }

  /** A read that returns some but not all of the bytes asked for returns whole words. */
  lemma ShortReadIsWords(c: Control, run: seq<Step>, d: Control)
    requires Start(c) && Reaches(c, run, d) && d.rpc.RReturn?
    ensures var ret := CallResult(d.rtotal, d.rcode); 0 < ret < d.rlen ==> ret % 4 == 0
  {
    StartInv(c);
    RunKeepsInv(c, run, d);
    RunKeepsWords(c, run, d);
  }

  // ---- RB_DONE -----------------------------------------------------------

  /** Every read of the run asks for whole words. */
  ghost predicate WordReads(run: seq<Step>) {
    forall i | 0 <= i < |run| && run[i].RStart? :: run[i].len % 4 == 0
  }

  ghost predicate DeliversWords(s: State) {
    s.ctl.rlen % 4 == 0 && s.ctl.rtotal % 4 == 0 && |s.delivered| % 4 == 0
  }

  lemma ActDeliversWords(s: State, a: Step)
    requires Coupled(s) && Inv(s.ctl) && DeliversWords(s)
    requires a.RStart? ==> a.len % 4 == 0
    ensures DeliversWords(Act(s, a))
  {
    if a.RSection? {
      ReadDeliversWords(s);
    } else {
      assert Act(s, a).delivered == s.delivered;
    }
  }

  lemma ReadDeliversWords(s: State)
    requires Coupled(s) && Inv(s.ctl) && DeliversWords(s)
    ensures DeliversWords(AfterRead(s))
  {
    TakingWords(s.ctl);
    var n := Taking(s.ctl);
    assert |CopyOut(s.core, n)| == n;
  }

  lemma TakingWords(c: Control)
    requires c.rtotal <= c.rlen && c.rlen % 4 == 0 && c.rtotal % 4 == 0
    ensures Taking(c) % 4 == 0
  {
  }

  lemma {:induction false} RunDeliversWords(s: State, run: seq<Step>, t: State)
    requires Coupled(s) && Inv(s.ctl) && Runs(s, run, t) && WordReads(run) && DeliversWords(s)
    ensures DeliversWords(t)
    decreases |run|
  {
    if run != [] {
      ActKeepsCoupled(s, run[0]);
      StepKeepsInv(s.ctl, run[0]);
      ActDeliversWords(s, run[0]);
      RunDeliversWords(Act(s, run[0]), run[1..], t);
    }
  }

  /** What a read that returns RB_DONE leaves undelivered is what it left at its last critical
      section, always fewer than four bytes, and what was written after that section. So it leaves
      fewer than four bytes exactly when these are fewer than four together, and none exactly when
      both are none; with whole words read and written, exactly when nothing was written after. */
  lemma DoneMeansDrained(s: State, run: seq<Step>, t: State)
    requires Fresh(s) && Runs(s, run, t)
    requires t.ctl.rpc.RReturn? && t.ctl.rcode == RB_DONE
    ensures t.delivered <= t.written && |t.written| - |t.delivered| == t.ctl.left + t.ctl.since && t.ctl.left < 4
    ensures |t.written| - |t.delivered| < 4 <==> t.ctl.since < 4 - t.ctl.left
    ensures t.delivered == t.written <==> t.ctl.left == 0 && t.ctl.since == 0
    ensures WordReads(run) && |t.written| % 4 == 0 ==> (t.delivered == t.written <==> t.ctl.since == 0)
  {
    StartInv(s.ctl);
    RunKeepsCoupled(s, run, t);
    Undelivered(t);
    if WordReads(run) {
      RunDeliversWords(s, run, t);
      WordsUndelivered(t);
    }
  }

  lemma Undelivered(t: State)
    requires Coupled(t) && Inv(t.ctl)
    ensures t.delivered <= t.written && |t.written| - |t.delivered| == t.ctl.left + t.ctl.since
    ensures t.delivered == t.written <==> t.ctl.left == 0 && t.ctl.since == 0
  {
    assert t.written[..|t.written|] == t.written;
  }

  lemma WordsUndelivered(t: State)
    requires |t.written| - |t.delivered| == t.ctl.left + t.ctl.since && t.ctl.left < 4 && DeliversWords(t)
    ensures |t.written| % 4 == 0 && t.ctl.since == 0 ==> t.ctl.left == 0
  {
  }

  lemma ReaderMeetsDone(c0: Control, c: Control, w: int, r: int)
    requires Reachable(c0, c, w, r) && c.rpc == RCheckDone && c.rtotal == 0
    ensures Reachable(c0, c.(done := true, rpc := RReturn, rcode := RB_DONE), w, r)
  {
    var c1 := c.(done := true);
    var c2 := c1.(rpc := RFinish, rcode := RB_DONE);
    Then(c0, c, w, r, SetDone, c1);
    Then(c0, c1, w, r, RTestDone, c2);
    Then(c0, c2, w, r, RWake, c2.(rpc := RReturn));
  }

  /** A reader that has just found the buffer empty. */
  lemma ReaderHasLooked(c: Control, w: int)
    requires Start(c)
    ensures Reachable(c, c.(rpc := RCheckDone, rlen := 4), w, 4)
  {
    assert Within([], w, 4) && Reaches(c, [], c);
    var c1 := c.(rpc := RLoop, rlen := 4);
    Then(c, c, w, 4, RStart(4), c1);
    ReaderLooks(c, c1, w, 4);
    assert c1.(rpc := RCheckDone, left := c1.fill, since := 0) == c.(rpc := RCheckDone, rlen := 4);
  }

  /** That much can be written in between: a reader that looked before a write of any size and
      tests the flag after it leaves with RB_DONE although all of it is waiting. */
  lemma DoneCanLeaveBytes(c: Control, data: seq<byte>)
    requires Start(c) && 0 < |data| <= c.size
    ensures exists d :: Reachable(c, d, |data|, 4) && d.rpc.RReturn? && d.rcode == RB_DONE && d.left == 0 && d.since == |data|
  {
    var w, r := |data|, 4;
    ReaderHasLooked(c, w);
    var c4 := c.(rpc := RCheckDone, rlen := 4);
    WholeWrite(c, c4, w, r, data);
    var c5 := c4.(fill := |data|, since := |data|, canRead := true);
    ReaderMeetsDone(c, c5, w, r);
    var d := c5.(done := true, rpc := RReturn, rcode := RB_DONE);
    assert d.rpc.RReturn? && d.rcode == RB_DONE && d.since == |data|;
  }
}
