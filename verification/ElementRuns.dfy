/** What holds of an audio element over every sequence of commands, callbacks and calls. */
module ElementRuns {
  import opened ElementTask

  // ---- Callbacks in order ------------------------------------------------

  /** Opens minus closes. */
  function Depth(cs: seq<Call>): int {
    if cs == [] then 0
    else
      Depth(cs[..|cs| - 1]) + match cs[|cs| - 1]
                              case Open(_) => 1
                              case Close => -1
                              case Process(_) => 0
  }

  /** Open and close alternate, starting with open, and process is called only in between. */
  ghost predicate Orderly(cs: seq<Call>) {
    && (forall i | 0 <= i <= |cs| :: 0 <= Depth(cs[..i]) <= 1)
    && (forall i | 0 <= i < |cs| && cs[i].Process? :: Depth(cs[..i]) == 1)
  }

  lemma OrderlySnoc(cs: seq<Call>, c: Call)
    requires Orderly(cs)
    requires Depth(cs) == if c.Open? then 0 else 1
    ensures Orderly(cs + [c])
    ensures Depth(cs + [c]) == if c.Close? then 0 else 1
  {
    var ds := cs + [c];
    assert ds[..|cs|] == cs && ds[..|ds|] == ds && cs[..|cs|] == cs;
    forall i | 0 <= i <= |ds| ensures 0 <= Depth(ds[..i]) <= 1 {
      assert i <= |cs| ==> ds[..i] == cs[..i];
    }
    forall i | 0 <= i < |ds| && ds[i].Process? ensures Depth(ds[..i]) == 1 {
      assert ds[..i] == cs[..i];
    }
  }

  ghost predicate Traced(e: El) {
    Orderly(e.calls) && Depth(e.calls) == if e.isOpen then 1 else 0
  }

  // ---- At the loop head --------------------------------------------------

  /** The four signs of a running element agree, and the stopped bit is up when it has to be and
      only when the element is closed. */
  ghost predicate AtHead(e: El) {
    && (e.state == Running <==> e.isOpen)
    && (e.isRunning <==> e.isOpen)
    && (!e.waits <==> e.isOpen)
    && (e.state == Stopped || e.state == Finished || e.state == Error ==> e.bits.stopped)
    && (e.bits.stopped ==> !e.isOpen)
  }

  ghost predicate Sound(e: El) {
    && Traced(e)
    && |e.queue| <= QUEUE_SIZE
    && (e.taskRun ==> AtHead(e))
    && (!e.taskRun ==> !e.isOpen)
  }

  lemma {:induction false} SendAllOnlyQueues(e: El, ms: seq<Msg>)
    ensures var e1 := SendAll(e, ms);
            e.queue <= e1.queue && e1 == e.(queue := e1.queue)
    ensures |e.queue| <= QUEUE_SIZE ==> |SendAll(e, ms).queue| <= QUEUE_SIZE
    decreases |ms|
  {
    if ms != [] {
      SendAllOnlyQueues(Send(e, ms[0]), ms[1..]);
    }
  }

  lemma CloseIsOrderly(e: El)
    requires Traced(e)
    ensures Traced(CloseIfOpen(e))
  {
    if e.isOpen {
      OrderlySnoc(e.calls, Close);
    }
  }

  /** What opening changes; of the queue only that it grows. */
  lemma OpenShape(e: El, t: Turn)
    ensures var e1 := OpenEl(e, t);
            e.queue <= e1.queue &&
            e1 == El(if t.openOk then Running else e.state, true, e.isRunning, e.taskRun, e.waits,
                     if t.openOk then e.bits.(started := true) else e.bits, e1.queue, e.calls + [Open(t.openOk)])
    ensures |e.queue| <= QUEUE_SIZE ==> |OpenEl(e, t).queue| <= QUEUE_SIZE
  {
    SendAllOnlyQueues(e.(isOpen := true, calls := e.calls + [Open(t.openOk)]), t.byOpen);
  }

  lemma OpenIsOrderly(e: El, t: Turn)
    requires Traced(e) && !e.isOpen
    ensures Traced(OpenEl(e, t)) && OpenEl(e, t).isOpen
  {
    OpenShape(e, t);
    OrderlySnoc(e.calls, Open(t.openOk));
  }

  lemma HaltedKeeps(e: El, s: State, bits: Bits)
    requires Sound(e) && e.taskRun && s != Running
    requires bits.stopped || (s == Paused && bits.stopped == e.bits.stopped)
    ensures Sound(Halted(e, s, bits)) && Halted(e, s, bits).taskRun && Halted(e, s, bits).queue == e.queue
  {
    CloseIsOrderly(e);
  }

  lemma ResumedKeeps(e: El, t: Turn)
    requires Sound(e) && e.taskRun && (e.state == Running || t.openOk)
    ensures Sound(Resumed(e, t)) && Resumed(e, t).taskRun && e.queue <= Resumed(e, t).queue
  {
    if e.state != Running {
      OpenShape(e, t);
      OpenIsOrderly(e, t);
    }
  }

  /** Handling an accepted command leads from one good state to another. */
  lemma AcceptedKeeps(e: El, m: Msg, t: Turn)
    requires Sound(e) && e.taskRun && Accepts(e, m, t)
    ensures Sound(OnCmd(e, m, t)) && OnCmd(e, m, t).taskRun
    ensures e.queue <= OnCmd(e, m, t).queue
  {
    var told := e.bits.(stopped := true);
    match m.cmd
    case CmdError => HaltedKeeps(e, Error, told);
    case CmdFinish => HaltedKeeps(e, Finished, told);
    case CmdStop => HaltedKeeps(e, Stopped, told);
    case CmdPause => HaltedKeeps(e, Paused, e.bits.(paused := true));
    case CmdResume => ResumedKeeps(e, t);
    case _ =>
  }

  /** A command that ends the task leaves nothing open, even when it was open that failed. */
  lemma RefusedCloses(e: El, m: Msg, t: Turn)
    requires Sound(e) && e.taskRun && !Accepts(e, m, t)
    ensures Sound(Exit(OnCmd(e, m, t)))
  {
    if m.ours && m.cmd == CmdResume {
      OpenShape(e, t);
      OpenIsOrderly(e, t);
    }
    CloseIsOrderly(OnCmd(e, m, t));
  }

  /** What a turn's processing changes; of the queue only that it grows. */
  lemma RunOnceShape(e: El, t: Turn)
    ensures var e1 := RunOnce(e, t);
            && e.queue <= e1.queue && (|e.queue| <= QUEUE_SIZE ==> |e1.queue| <= QUEUE_SIZE)
            && e1 == e.(queue := e1.queue, calls := e1.calls)
            && (e1.calls == e.calls || (e.isOpen && e1.calls == e.calls + [Process(t.result)]))
  {
    SendAllOnlyQueues(e.(calls := e.calls + [Process(t.result)]), t.byProcess);
  }

  lemma RunOnceKeeps(e: El, t: Turn)
    requires Sound(e) && e.taskRun
    ensures Sound(RunOnce(e, t)) && RunOnce(e, t).taskRun
    ensures e.queue <= RunOnce(e, t).queue
    ensures RunOnce(e, t) == e.(queue := RunOnce(e, t).queue, calls := RunOnce(e, t).calls)
  {
    RunOnceShape(e, t);
    if e.isOpen {
      OrderlySnoc(e.calls, Process(t.result));
    }
  }

  /** One turn of the loop, whatever arrives and however the callbacks end. */
  lemma TurnKeeps(e: El, t: Turn)
    requires Sound(e) && e.taskRun
    ensures Sound(Iterate(e, t))
    ensures e.queue != [] && Iterate(e, t).taskRun ==> e.queue[1..] <= Iterate(e, t).queue
  {
    var e0 := SendAll(e, t.before);
    SendAllOnlyQueues(e, t.before);
    assert Sound(e0);
    if e0.queue == [] {
      if !e0.waits {
        RunOnceKeeps(e0, t);
      }
    } else {
      var e1 := e0.(queue := e0.queue[1..]);
      assert Sound(e1);
      assert e.queue != [] ==> e.queue[1..] <= e1.queue;
      if Accepts(e0, e0.queue[0], t) {
        AcceptedKeeps(e1, e0.queue[0], t);
        RunOnceKeeps(OnCmd(e1, e0.queue[0], t), t);
      } else {
        RefusedCloses(e1, e0.queue[0], t);
      }
    }
  }

  /** Every turn of one life of the task, foreign messages included. */
  lemma {:induction false} TaskKeeps(e: El, ts: seq<Turn>)
    requires Sound(e)
    ensures Sound(RunTask(e, ts))
    decreases |ts|
  {
    if ts != [] && e.taskRun {
      TurnKeeps(e, ts[0]);
      TaskKeeps(Iterate(e, ts[0]), ts[1..]);
    }
  }

  // ---- Any sequence of events --------------------------------------------

  datatype Event = Take(turn: Turn) | Post(msg: Msg) | CallRun | CallStop | CallPause | CallResume | CallTerminate

  function Apply(e: El, ev: Event): El {
    match ev
    case Take(t) => if e.taskRun then Iterate(e, t) else e
    case Post(m) => Send(e, m)
    case CallRun => RunApi(e)
    case CallStop => StopApi(e).0
    case CallPause => PauseApi(e).0
    case CallResume => ResumeApi(e).0
    case CallTerminate => TerminateApi(e).0
  }

  function After(e: El, evs: seq<Event>): El {
    if evs == [] then e else Apply(After(e, evs[..|evs| - 1]), evs[|evs| - 1])
  }

  /** What `audio_element_cmd_send`, the only writer of the queue, can send. */
  predicate Ours(m: Msg) {
    m.ours && m.cmd != CmdOther
  }

  ghost predicate AllOurs(ms: seq<Msg>) {
    forall i | 0 <= i < |ms| :: Ours(ms[i])
  }

  ghost predicate OwnEvent(ev: Event) {
    match ev
    case Take(t) => AllOurs(t.before) && AllOurs(t.byOpen) && AllOurs(t.byProcess)
    case Post(m) => Ours(m)
    case _ => true
  }

  /** A life that can be followed by another one. */
  ghost predicate Living(e: El) {
    Sound(e) && AllOurs(e.queue) && (!e.taskRun ==> !e.isRunning)
  }

  lemma {:induction false} SendAllOurs(e: El, ms: seq<Msg>)
    requires AllOurs(e.queue) && AllOurs(ms)
    ensures AllOurs(SendAll(e, ms).queue)
    decreases |ms|
  {
    if ms != [] {
      SendAllOurs(Send(e, ms[0]), ms[1..]);
    }
  }

  lemma OnCmdOurs(e: El, m: Msg, t: Turn)
    requires AllOurs(e.queue) && OwnEvent(Take(t))
    ensures AllOurs(OnCmd(e, m, t).queue)
  {
    SendAllOurs(e.(isOpen := true, calls := e.calls + [Open(t.openOk)]), t.byOpen);
  }

  lemma RunOnceOurs(e: El, t: Turn)
    requires AllOurs(e.queue) && OwnEvent(Take(t))
    ensures AllOurs(RunOnce(e, t).queue)
  {
    SendAllOurs(e.(calls := e.calls + [Process(t.result)]), t.byProcess);
  }

  lemma TurnOurs(e: El, t: Turn)
    requires AllOurs(e.queue) && OwnEvent(Take(t))
    ensures AllOurs(Iterate(e, t).queue)
  {
    var e0 := SendAll(e, t.before);
    SendAllOurs(e, t.before);
    if e0.queue != [] {
      OnCmdOurs(e0.(queue := e0.queue[1..]), e0.queue[0], t);
    }
    RunOnceOurs(Received(e0, t), t);
  }

  lemma AcceptedGoesOn(e: El, m: Msg, t: Turn)
    requires Sound(e) && e.taskRun && Accepts(e, m, t)
    ensures RunOnce(OnCmd(e, m, t), t).taskRun
  {
    AcceptedKeeps(e, m, t);
    RunOnceKeeps(OnCmd(e, m, t), t);
  }

  lemma RefusedEnds(e: El, m: Msg, t: Turn)
    requires Sound(e) && e.taskRun && !Accepts(e, m, t)
    ensures var e1 := Exit(OnCmd(e, m, t));
            !e1.taskRun && e1.bits.destroyed && (m.ours ==> !e1.isRunning)
  {
    if m.ours && m.cmd == CmdResume {
      OpenShape(e, t);
    }
  }

  /** How a turn ends the task: by a DESTROY or by a RESUME whose open failed, and then the element
      no longer counts as running. The guard against messages from elsewhere is never needed. */
  lemma EndedTurn(e: El, t: Turn)
    requires Living(e) && e.taskRun && OwnEvent(Take(t))
    ensures var e0 := SendAll(e, t.before);
            !Iterate(e, t).taskRun <==>
              && e0.queue != []
              && (e0.queue[0].cmd == CmdDestroy || (e0.queue[0].cmd == CmdResume && e.state != Running && !t.openOk))
    ensures !Iterate(e, t).taskRun ==> !Iterate(e, t).isRunning
  {
    var e0 := SendAll(e, t.before);
    SendAllOnlyQueues(e, t.before);
    SendAllOurs(e, t.before);
    if e0.queue == [] {
      RunOnceShape(e0, t);
    } else {
      var e1, m := e0.(queue := e0.queue[1..]), e0.queue[0];
      assert Ours(m) && (Accepts(e0, m, t) <==> Accepts(e1, m, t));
      if Accepts(e1, m, t) {
        AcceptedGoesOn(e1, m, t);
      } else {
        RefusedEnds(e1, m, t);
      }
    }
  }

  lemma TurnLives(e: El, t: Turn)
    requires Living(e) && e.taskRun && OwnEvent(Take(t))
    ensures Living(Iterate(e, t))
  {
    TurnKeeps(e, t);
    TurnOurs(e, t);
    EndedTurn(e, t);
  }

  lemma SendLives(e: El, m: Msg)
    requires Living(e) && Ours(m)
    ensures Living(Send(e, m))
  {
  }

  lemma EventKeeps(e: El, ev: Event)
    requires Living(e) && OwnEvent(ev)
    ensures Living(Apply(e, ev))
  {
    match ev
    case Take(t) =>
      if e.taskRun {
        TurnLives(e, t);
      }
    case Post(m) => SendLives(e, m);
    case CallRun =>
    case CallStop => SendLives(e, Command(CmdStop));
    case CallPause => SendLives(e.(bits := e.bits.(paused := false)), Command(CmdPause));
    case CallResume => SendLives(e, Command(CmdResume));
    case CallTerminate => SendLives(e.(bits := e.bits.(destroyed := false)), Command(CmdDestroy));
  }

  /** Over every sequence of runs, stops, pauses, resumes, terminations, posted commands and turns
      of the task, whatever open and process return: at every loop head RUNNING, is_open,
      is_running and polling hold together or not at all; STOPPED, FINISHED and ERROR have the
      stopped bit up and a raised bit means closed; open and close alternate, process is called
      in between only; and nothing is open once the task has ended. */
  lemma {:induction false} ElementStaysSound(evs: seq<Event>)
    requires forall i | 0 <= i < |evs| :: OwnEvent(evs[i])
    ensures Living(After(Fresh, evs))
    decreases |evs|
  {
    if evs != [] {
      ElementStaysSound(evs[..|evs| - 1]);
      EventKeeps(After(Fresh, evs[..|evs| - 1]), evs[|evs| - 1]);
    }
  }

  /** In every such sequence a turn ends the task exactly for those two reasons, and the next task
      starts in a good state. */
  lemma EndedTaskRestarts(evs: seq<Event>, t: Turn)
    requires (forall i | 0 <= i < |evs| :: OwnEvent(evs[i])) && OwnEvent(Take(t)) && After(Fresh, evs).taskRun
    ensures var e := After(Fresh, evs);
            var e0 := SendAll(e, t.before);
            !Iterate(e, t).taskRun <==>
              && e0.queue != []
              && (e0.queue[0].cmd == CmdDestroy || (e0.queue[0].cmd == CmdResume && e.state != Running && !t.openOk))
    ensures var dead := Iterate(After(Fresh, evs), t);
            var again := RunApi(dead);
            !dead.taskRun ==> Living(again) && again.taskRun && again.state == Init && again.queue == [] && !again.bits.stopped
  {
    ElementStaysSound(evs);
    EndedTurn(After(Fresh, evs), t);
    TurnLives(After(Fresh, evs), t);
  }

  // ---- Commands take effect ----------------------------------------------

  /** The state a halting command leads to. */
  function HaltState(c: Cmd): State {
    match c
    case CmdStop => Stopped
    case CmdFinish => Finished
    case CmdError => Error
    case CmdPause => Paused
    case _ => NoState
  }

  predicate IsHalt(c: Cmd) {
    HaltState(c) != NoState
  }

  /** The element rests in the state `c` asked for, and whoever waits for that has been told. */
  predicate Rests(e: El, c: Cmd) {
    e.state == HaltState(c) && !e.isOpen && if c == CmdPause then e.bits.paused else e.bits.stopped
  }

  lemma HeadIsHandled(e: El, t: Turn)
    requires Sound(e) && e.taskRun && e.queue != []
    requires e.queue[0].ours && (IsHalt(e.queue[0].cmd) || e.queue[0].cmd == CmdDestroy)
    ensures IsHalt(e.queue[0].cmd) ==> Rests(Iterate(e, t), e.queue[0].cmd)
    ensures e.queue[0].cmd == CmdDestroy ==> !Iterate(e, t).taskRun && Iterate(e, t).bits.destroyed
  {
    SendAllOnlyQueues(e, t.before);
    var e0 := SendAll(e, t.before);
    var m := e.queue[0];
    assert e0.queue[0] == m;
    var e1 := e0.(queue := e0.queue[1..]);
    assert Received(e0, t) == OnCmd(e1, m, t);
    assert IsHalt(m.cmd) ==> Rests(OnCmd(e1, m, t), m.cmd);
  }

  /** A halting command at position `p` of the queue is carried out within p + 1 turns, unless the
      task has ended by then; nothing that arrives or returns meanwhile can hold it up. */
  lemma {:induction false} HaltTakesEffect(e: El, p: nat, ts: seq<Turn>)
    requires Sound(e) && e.taskRun && p < |e.queue| && |ts| == p + 1
    requires e.queue[p].ours && IsHalt(e.queue[p].cmd)
    ensures var e1 := RunTask(e, ts);
            e1.taskRun ==> Rests(e1, e.queue[p].cmd)
    decreases p
  {
    var e1 := Iterate(e, ts[0]);
    TurnKeeps(e, ts[0]);
    assert ts[1..] == [] <==> p == 0;
    if p == 0 {
      HeadIsHandled(e, ts[0]);
      assert RunTask(e, ts) == RunTask(e1, []) == e1;
    } else if e1.taskRun {
      assert e1.queue[p - 1] == e.queue[1..][p - 1] == e.queue[p];
      HaltTakesEffect(e1, p - 1, ts[1..]);
    }
  }

  /** Whoever waits for the end of the task is told. */
  lemma EndIsTold(e: El, t: Turn)
    requires Sound(e) && e.taskRun && !Iterate(e, t).taskRun
    ensures Iterate(e, t).bits.destroyed
  {
    var e0 := SendAll(e, t.before);
    SendAllOnlyQueues(e, t.before);
    if e0.queue == [] {
      RunOnceShape(e0, t);
    } else {
      var e1, m := e0.(queue := e0.queue[1..]), e0.queue[0];
      if Accepts(e1, m, t) {
        AcceptedGoesOn(e1, m, t);
      } else {
        RefusedEnds(e1, m, t);
      }
    }
  }

  /** A DESTROY at position `p` ends the task within p + 1 turns. */
  lemma {:induction false} DestroyEndsTask(e: El, p: nat, ts: seq<Turn>)
    requires Sound(e) && e.taskRun && p < |e.queue| && |ts| == p + 1
    requires e.queue[p] == Command(CmdDestroy)
    ensures !RunTask(e, ts).taskRun && RunTask(e, ts).bits.destroyed
    decreases p
  {
    var e1 := Iterate(e, ts[0]);
    TurnKeeps(e, ts[0]);
    assert p > 0 || ts[1..] == [];
    if p == 0 {
      HeadIsHandled(e, ts[0]);
    } else if e1.taskRun {
      assert e1.queue[p - 1] == e.queue[1..][p - 1] == e.queue[p];
      DestroyEndsTask(e1, p - 1, ts[1..]);
    } else {
      EndIsTold(e, ts[0]);
    }
  }

  /** A RESUME at the head of the queue runs the element: it is opened, unless it runs already, and
      processes in the same turn; an open that fails is closed again and ends the task. */
  lemma HeadResumes(e: El, t: Turn)
    requires Sound(e) && e.taskRun && e.queue != [] && e.queue[0] == Command(CmdResume)
    ensures var e1 := Iterate(e, t);
            if e.state == Running || t.openOk then
              && e1.taskRun && e1.state == Running && e1.isOpen && e1.isRunning && !e1.waits && !e1.bits.stopped
              && e1.calls == e.calls + (if e.state == Running then [] else [Open(true)]) + [Process(t.result)]
            else !e1.taskRun && !e1.isOpen && e1.calls == e.calls + [Open(false), Close]
  {
    SendAllOnlyQueues(e, t.before);
    var e0 := SendAll(e, t.before);
    var e1 := e0.(queue := e0.queue[1..]);
    assert e0.queue[0] == e.queue[0];
    if e.state != Running {
      OpenShape(e1, t);
    }
    if e.state == Running || t.openOk {
      var e2 := OnCmd(e1, Command(CmdResume), t);
      assert e2.state == Running && e2.isOpen;
      SendAllOnlyQueues(e2.(calls := e2.calls + [Process(t.result)]), t.byProcess);
    }
  }

  /** So does one at position `p`, within p + 1 turns, unless the task has ended by then. */
  lemma {:induction false} ResumeTakesEffect(e: El, p: nat, ts: seq<Turn>)
    requires Sound(e) && e.taskRun && p < |e.queue| && |ts| == p + 1
    requires e.queue[p] == Command(CmdResume)
    ensures var e1 := RunTask(e, ts);
            e1.taskRun ==> e1.state == Running && e1.isOpen && !e1.bits.stopped
    decreases p
  {
    var e1 := Iterate(e, ts[0]);
    TurnKeeps(e, ts[0]);
    assert p > 0 || ts[1..] == [];
    if p == 0 {
      HeadResumes(e, ts[0]);
    } else if e1.taskRun {
      assert e1.queue[p - 1] == e.queue[1..][p - 1] == e.queue[p];
      ResumeTakesEffect(e1, p - 1, ts[1..]);
    }
  }

  /** A stop that reports success never leaves `audio_element_wait_for_stop` hanging: either the
      bit is up already, or it goes up within as many turns as there are commands queued, unless
      the task ends. */
  lemma StopIsAnswered(e: El, ts: seq<Turn>)
    requires Sound(e) && StopApi(e).1.Ok?
    requires |ts| == |e.queue| + 1
    ensures e.taskRun
    ensures var e0, e1 := StopApi(e).0, RunTask(StopApi(e).0, ts);
            if e.state == Stopped then e0 == e && e.bits.stopped && !e.isOpen
            else e1.taskRun ==> e1.state == Stopped && e1.bits.stopped && !e1.isOpen
  {
    if e.state != Stopped {
      var e0 := StopApi(e).0;
      assert e0.queue[|e.queue|] == Command(CmdStop);
      HaltTakesEffect(e0, |e.queue|, ts);
    }
  }

  /** A pause that reports success finds the element paused or past that, or it is paused and the
      bit is up within as many turns as there are commands queued, unless the task ends. */
  lemma PauseIsAnswered(e: El, ts: seq<Turn>)
    requires Sound(e) && PauseApi(e).1.Ok? && |ts| == |e.queue| + 1
    ensures e.taskRun
    ensures var e0, e1 := PauseApi(e).0, RunTask(PauseApi(e).0, ts);
            if e.state in {Paused, Stopped, Finished, Error} then e0 == e && !e.isOpen
            else e1.taskRun ==> e1.state == Paused && e1.bits.paused && !e1.isOpen
  {
    if e.state !in {Paused, Stopped, Finished, Error} {
      var e0 := PauseApi(e).0;
      assert e0.queue[|e.queue|] == Command(CmdPause);
      HaltTakesEffect(e0, |e.queue|, ts);
    }
  }

  /** A terminate that reports success finds no task, or the task ends, and the bit is up, within as
      many turns as there are commands queued. */
  lemma TerminateIsAnswered(e: El, ts: seq<Turn>)
    requires Sound(e) && TerminateApi(e).1.Ok? && |ts| == |e.queue| + 1
    ensures var e0, e1 := TerminateApi(e).0, RunTask(TerminateApi(e).0, ts);
            if !e.taskRun then e0 == e else !e1.taskRun && !e1.isOpen && e1.bits.destroyed
  {
    if e.taskRun {
      var e0 := TerminateApi(e).0;
      assert e0.queue[|e.queue|] == Command(CmdDestroy);
      DestroyEndsTask(e0, |e.queue|, ts);
      TaskKeeps(e0, ts);
    }
  }

  /** A resume with room in the queue, from a state it is meant for, runs the element within as many
      turns, unless the task ends. */
  lemma ResumeIsAnswered(e: El, ts: seq<Turn>)
    requires Sound(e) && e.taskRun && |e.queue| < QUEUE_SIZE && |ts| == |e.queue| + 1
    requires e.state in {Init, Paused, Stopped}
    ensures var e1 := RunTask(ResumeApi(e).0, ts);
            ResumeApi(e).1.Ok? && (e1.taskRun ==> e1.state == Running && e1.isOpen && !e1.bits.stopped)
  {
    var e0 := ResumeApi(e).0;
    assert e0.queue[|e.queue|] == Command(CmdResume);
    ResumeTakesEffect(e0, |e.queue|, ts);
  }

  /** Which requests are refused: all without a task, but for a terminate, which has nothing to do;
      a resume in ERROR; and the others if they have something to send and the queue is full. What is
      refused, or asks for nothing new, sends nothing. */
  lemma RefusedRequests(e: El)
    requires Sound(e)
    ensures var full := |e.queue| == QUEUE_SIZE;
            && (StopApi(e).1.Fail? <==> !e.taskRun || (e.state != Stopped && full))
            && (PauseApi(e).1.Fail? <==> !e.taskRun || (e.state in {NoState, Init, Running} && full))
            && (ResumeApi(e).1.Fail? <==> !e.taskRun || e.state == Error)
            && (TerminateApi(e).1.Fail? <==> e.taskRun && full)
    ensures StopApi(e).1.Fail? ==> StopApi(e).0 == e
    ensures PauseApi(e).1.Fail? ==> PauseApi(e).0.queue == e.queue && PauseApi(e).0.state == e.state
    ensures ResumeApi(e).1.Fail? || e.state in {Running, Finished} ==> ResumeApi(e).0 == e
    ensures TerminateApi(e).1.Fail? ==> TerminateApi(e).0.queue == e.queue && TerminateApi(e).0.state == e.state
  {
  }

  // ---- Process results ---------------------------------------------------

  function Taken(room: nat, ms: seq<Msg>): seq<Msg> {
    if |ms| <= room then ms else ms[..room]
  }

  lemma TakenFirst(q: seq<Msg>, ms: seq<Msg>)
    requires ms != [] && |q| <= QUEUE_SIZE
    ensures q + Taken(QUEUE_SIZE - |q|, ms) ==
      if |q| < QUEUE_SIZE then q + [ms[0]] + Taken(QUEUE_SIZE - |q| - 1, ms[1..]) else q + Taken(0, ms[1..])
  {
    assert ms == [ms[0]] + ms[1..];
  }

  /** What a burst of messages leaves in the queue: as many of the first as fit. */
  lemma {:induction false} BurstKeepsFirst(e: El, ms: seq<Msg>)
    requires |e.queue| <= QUEUE_SIZE
    ensures SendAll(e, ms).queue == e.queue + Taken(QUEUE_SIZE - |e.queue|, ms)
    decreases |ms|
  {
    if ms != [] {
      BurstKeepsFirst(Send(e, ms[0]), ms[1..]);
      TakenFirst(e.queue, ms);
    }
  }

  /** What is in the queue when process has returned: the command its result calls for is there,
      last, if and only if fewer messages were waiting or came in meanwhile than the queue holds. */
  lemma ResultIsQueued(e: El, t: Turn)
    requires Sound(e) && e.taskRun && e.isOpen && ResultCmd(t.result) != CmdOther
    ensures RunOnce(e, t).queue ==
      if |e.queue| + |t.byProcess| < QUEUE_SIZE then e.queue + t.byProcess + [Command(ResultCmd(t.result))]
      else e.queue + Taken(QUEUE_SIZE - |e.queue|, t.byProcess)
  {
    BurstKeepsFirst(e.(calls := e.calls + [Process(t.result)]), t.byProcess);
  }

  /** With that room the end of a stream, or an error, takes effect: after as many turns as there
      were messages, and one more, the element rests in FINISHED, or in ERROR, unless the task has
      ended. */
  lemma ResultTakesEffect(e: El, t: Turn, ts: seq<Turn>)
    requires Sound(e) && e.taskRun && e.isOpen && ResultCmd(t.result) != CmdOther
    requires |e.queue| + |t.byProcess| < QUEUE_SIZE && |ts| == |e.queue| + |t.byProcess| + 1
    ensures var e1 := RunTask(RunOnce(e, t), ts);
            e1.taskRun ==> Rests(e1, ResultCmd(t.result))
  {
    ResultIsQueued(e, t);
    RunOnceKeeps(e, t);
    HaltTakesEffect(RunOnce(e, t), |e.queue| + |t.byProcess|, ts);
  }

  /** The end of the stream (AEL_IO_DONE, -2, or AEL_IO_OK, 0) makes the element FINISHED. */
  lemma EndFinishes(e: El, t: Turn, ts: seq<Turn>)
    requires Sound(e) && e.taskRun && e.isOpen && (t.result == -2 || t.result == 0)
    requires |e.queue| + |t.byProcess| < QUEUE_SIZE && |ts| == |e.queue| + |t.byProcess| + 1
    ensures var e1 := RunTask(RunOnce(e, t), ts);
            e1.taskRun ==> e1.state == Finished && e1.bits.stopped && !e1.isOpen
  {
    ResultTakesEffect(e, t, ts);
  }

  /** A failure (AEL_IO_FAIL, -1, or AEL_PROCESS_FAIL, -5) makes it ERROR. */
  lemma FailureErrs(e: El, t: Turn, ts: seq<Turn>)
    requires Sound(e) && e.taskRun && e.isOpen && (t.result == -1 || t.result == -5)
    requires |e.queue| + |t.byProcess| < QUEUE_SIZE && |ts| == |e.queue| + |t.byProcess| + 1
    ensures var e1 := RunTask(RunOnce(e, t), ts);
            e1.taskRun ==> e1.state == Error && e1.bits.stopped && !e1.isOpen
  {
    ResultTakesEffect(e, t, ts);
  }

  /** Any other result, an abort (-3), a timeout (-4) or a count of bytes among them, queues nothing
      and leaves it running. */
  lemma OthersGoOn(e: El, t: Turn)
    requires Sound(e) && e.taskRun && e.isOpen && t.result !in {0, -1, -2, -5}
    ensures var e1 := RunOnce(e, t);
            && e1.state == Running && e1.isOpen && e1.taskRun && e1.calls == e.calls + [Process(t.result)]
            && e1.queue == e.queue + Taken(QUEUE_SIZE - |e.queue|, t.byProcess)
  {
    var e0 := e.(calls := e.calls + [Process(t.result)]);
    BurstKeepsFirst(e0, t.byProcess);
    SendAllOnlyQueues(e0, t.byProcess);
  }

  /** Five calls of resume before the task first looks, and one more while it opens. */
  const EagerCalls: seq<Event> := [CallRun, CallResume, CallResume, CallResume, CallResume, CallResume]

  const EagerTurn: Turn := Turn([], true, [Command(CmdResume)], [], IO_DONE)

  const FiveResumes: seq<Msg> := seq(QUEUE_SIZE, _ => Command(CmdResume))

  /** Without that room the end is lost, and callers of resume alone can bring that about: process
      has reported the end, the queue is full of resumes, and process is called again in the next
      turn, whatever that brings. */
  lemma EndCanBeLost(next: Turn)
    ensures var e := After(Fresh, EagerCalls + [Take(EagerTurn)]);
            && e.state == Running && e.queue == FiveResumes && e.calls == [Open(true), Process(IO_DONE)]
            && Iterate(e, next).calls == [Open(true), Process(IO_DONE), Process(next.result)]
  {
    EagerQueue();
    var e0 := After(Fresh, EagerCalls);
    var e := After(Fresh, EagerCalls + [Take(EagerTurn)]);
    assert (EagerCalls + [Take(EagerTurn)])[..|EagerCalls|] == EagerCalls;
    assert e == Iterate(e0, EagerTurn);
    EagerFirstTurn(e0);
    ResumeIsNeutral(e, next);
  }

  /** Only the queue differs from a task that has just started. */
  lemma EagerQueue()
    ensures After(Fresh, EagerCalls) == RunApi(Fresh).(queue := FiveResumes)
  {
    var r := Command(CmdResume);
    var e := RunApi(Fresh);
    assert EagerCalls[..5][..4] == EagerCalls[..4] && EagerCalls[..4][..3] == EagerCalls[..3];
    assert EagerCalls[..3][..2] == EagerCalls[..2] && EagerCalls[..2][..1] == EagerCalls[..1];
    assert EagerCalls[..1] == [CallRun] && [CallRun][..0] == [];
    assert After(Fresh, [CallRun]) == e;
    assert After(Fresh, EagerCalls[..2]) == e.(queue := [r]);
    assert After(Fresh, EagerCalls[..3]) == e.(queue := [r, r]);
    assert After(Fresh, EagerCalls[..4]) == e.(queue := [r, r, r]);
    assert After(Fresh, EagerCalls[..5]) == e.(queue := [r, r, r, r]);
    assert FiveResumes == [r, r, r, r] + [r];
  }

  lemma EagerFirstTurn(e: El)
    requires e == RunApi(Fresh).(queue := FiveResumes)
    ensures var e1 := Iterate(e, EagerTurn);
            && e1.state == Running && e1.isOpen && e1.taskRun
            && e1.queue == FiveResumes && e1.calls == [Open(true), Process(IO_DONE)]
  {
    var r := Command(CmdResume);
    var e0 := e.(queue := e.queue[1..]);
    assert e0.queue == [r, r, r, r] && [r][1..] == [];
    var o := e0.(isOpen := true, calls := [Open(true)]);
    assert SendAll(o, [r]) == o.(queue := [r, r, r, r] + [r]);
    assert FiveResumes == [r, r, r, r] + [r];
    var e1 := OnCmd(e0, r, EagerTurn);
    assert e1.isOpen && e1.state == Running && e1.queue == FiveResumes && e1.calls == [Open(true)];
    assert Iterate(e, EagerTurn) == RunOnce(e1, EagerTurn);
  }

  /** A resume that finds the element running changes nothing, and process is called. */
  lemma ResumeIsNeutral(e: El, t: Turn)
    requires e.state == Running && e.isOpen && e.taskRun && e.queue != [] && e.queue[0] == Command(CmdResume)
    ensures Iterate(e, t).calls == e.calls + [Process(t.result)]
  {
    SendAllOnlyQueues(e, t.before);
    var e0 := SendAll(e, t.before);
    var e1 := e0.(queue := e0.queue[1..], isRunning := true);
    assert Received(e0, t) == e1;
    SendAllOnlyQueues(e1.(calls := e1.calls + [Process(t.result)]), t.byProcess);
  }
}
