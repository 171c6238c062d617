/** The task of an audio element (components/audio_pipeline/audio_element.c): a bounded command
    queue drives a state machine that opens, runs and closes the element. Tasked elements with
    open and close callbacks are modelled. */
module ElementTask {

  datatype State = NoState | Init | Running | Paused | Stopped | Finished | Error

  datatype Cmd = CmdError | CmdFinish | CmdStop | CmdPause | CmdResume | CmdDestroy | CmdOther

  /** `ours`: the message says it comes from an element. */
  datatype Msg = Msg(ours: bool, cmd: Cmd)

  datatype Call = Open(ok: bool) | Process(result: int) | Close

  const IO_OK := 0
  const IO_FAIL := -1
  const IO_DONE := -2
  const IO_ABORT := -3
  const IO_TIMEOUT := -4
  const PROCESS_FAIL := -5

  /** DEFAULT_AUDIO_EVENT_IFACE_SIZE: the capacity of the command queue. */
  const QUEUE_SIZE := 5

  /** The event group. */
  datatype Bits = Bits(stopped: bool, started: bool, paused: bool, created: bool, destroyed: bool)

  /** `waits`: the task blocks for the next command (portMAX_DELAY) instead of polling. `calls`
      lists every callback made so far. */
  datatype El = El(
    state: State, isOpen: bool, isRunning: bool, taskRun: bool, waits: bool, bits: Bits,
    queue: seq<Msg>, calls: seq<Call>)

  /** What the surroundings do in one turn of the task's loop: the commands that arrive before the
      queue is read, how open and process end, and the commands sent while they run. */
  datatype Turn = Turn(before: seq<Msg>, openOk: bool, byOpen: seq<Msg>, byProcess: seq<Msg>, result: int)

  // ---- The command queue -------------------------------------------------

  /** A full queue loses the message. */
  function Send(e: El, m: Msg): El {
    if |e.queue| < QUEUE_SIZE then e.(queue := e.queue + [m]) else e
  }

  function SendAll(e: El, ms: seq<Msg>): El
    decreases |ms|
  {
    if ms == [] then e else SendAll(Send(e, ms[0]), ms[1..])
  }

  function Command(c: Cmd): Msg {
    Msg(true, c)
  }

  // ---- Handling a command ------------------------------------------------

  function CloseIfOpen(e: El): El {
    if e.isOpen then e.(isOpen := false, calls := e.calls + [Close]) else e
  }

  /** `audio_element_process_state_init`. */
  function OpenEl(e: El, t: Turn): El {
    var e1 := SendAll(e.(isOpen := true, calls := e.calls + [Open(t.openOk)]), t.byOpen);
    if t.openOk then e1.(state := Running, bits := e1.bits.(started := true)) else Send(e1, Command(CmdError))
  }

  function Resumed(e: El, t: Turn): El {
    if e.state == Running then e.(isRunning := true)
    else
      var e1 := OpenEl(e, t);
      if t.openOk then e1.(waits := false, bits := e1.bits.(stopped := false), isRunning := true) else e1
  }

  /** What the commands that end a run have in common. */
  function Halted(e: El, s: State, bits: Bits): El {
    CloseIfOpen(e).(state := s, waits := true, isRunning := false, bits := bits)
  }

  /** `audio_element_on_cmd`. */
  function OnCmd(e: El, m: Msg, t: Turn): El {
    if !m.ours then e
    else
      match m.cmd
      case CmdError => Halted(e, Error, e.bits.(stopped := true))
      case CmdFinish => Halted(e, Finished, e.bits.(stopped := true))
      case CmdStop =>
        if e.state != Finished && e.state != Stopped then Halted(e, Stopped, e.bits.(stopped := true))
        else e.(state := Stopped, bits := e.bits.(stopped := true))
      case CmdPause => Halted(e, Paused, e.bits.(paused := true))
      case CmdResume => Resumed(e, t)
      case CmdDestroy => e.(taskRun := false, isRunning := false)
      case CmdOther => e
  }

  /** Whether the task goes on after a message. */
  predicate Accepts(e: El, m: Msg, t: Turn) {
    m.ours && m.cmd != CmdDestroy && (m.cmd == CmdResume && e.state != Running ==> t.openOk)
  }

  /** The command a process result makes the task send to itself. */
  function ResultCmd(result: int): (c: Cmd) {
    if result == IO_DONE || result == IO_OK then CmdFinish
    else if result == IO_FAIL || result == PROCESS_FAIL then CmdError
    else CmdOther
  }

  /** `audio_element_process_state_running`. */
  function RunOnce(e: El, t: Turn): El {
    if e.state == NoState || e.state == Init || !e.isOpen then e
    else
      var e1 := SendAll(e.(calls := e.calls + [Process(t.result)]), t.byProcess);
      if ResultCmd(t.result) == CmdOther then e1 else Send(e1, Command(ResultCmd(t.result)))
  }

  function Exit(e: El): El {
    var e1 := CloseIfOpen(e);
    e1.(taskRun := false, bits := e1.bits.(destroyed := true))
  }

  /** `audio_event_iface_waiting_cmd_msg`, once it returns. */
  function Received(e: El, t: Turn): El {
    if e.queue == [] then e else OnCmd(e.(queue := e.queue[1..]), e.queue[0], t)
  }

  predicate GoesOn(e: El, t: Turn) {
    e.queue == [] || Accepts(e, e.queue[0], t)
  }

  /** One turn of the loop of `audio_element_task`; a blocked task only sees commands arrive. */
  function Iterate(e: El, t: Turn): El {
    var e0 := SendAll(e, t.before);
    if e0.queue == [] && e0.waits then e0
    else if GoesOn(e0, t) then RunOnce(Received(e0, t), t)
    else Exit(Received(e0, t))
  }

  function RunTask(e: El, ts: seq<Turn>): El
    decreases |ts|
  {
    if ts == [] || !e.taskRun then e else RunTask(Iterate(e, ts[0]), ts[1..])
  }

  // ---- What other tasks call ---------------------------------------------

  const Fresh: El := El(Init, false, false, false, false, Bits(false, false, false, false, false), [], [])

  /** `audio_element_run`, up to the first turn of the new task. */
  function RunApi(e: El): El {
    if e.taskRun then e
    else e.(queue := [], bits := e.bits.(created := true, stopped := false), taskRun := true, state := Init, waits := true)
  }

  datatype Status = Ok | Fail

  /** `audio_element_stop`. */
  function StopApi(e: El): (El, Status) {
    if !e.taskRun then (e, Fail)
    else if e.state == Stopped then (e, Ok)
    else (Send(e, Command(CmdStop)), if |e.queue| < QUEUE_SIZE then Ok else Fail)
  }

  /** `audio_element_pause`, up to the wait. */
  function PauseApi(e: El): (El, Status) {
    if !e.taskRun then (e, Fail)
    else if e.state != NoState && e.state != Init && e.state != Running then (e, Ok)
    else (Send(e.(bits := e.bits.(paused := false)), Command(CmdPause)), if |e.queue| < QUEUE_SIZE then Ok else Fail)
  }

  /** `audio_element_resume` without a buffer threshold: a lost command is not reported. */
  function ResumeApi(e: El): (El, Status) {
    if !e.taskRun then (e, Fail)
    else if e.isRunning || e.state == Running then (e, Ok)
    else if e.state == Error then (e, Fail)
    else if e.state == Finished then (e, Ok)
    else (Send(e, Command(CmdResume)), Ok)
  }

  /** `audio_element_terminate`, up to the wait. */
  function TerminateApi(e: El): (El, Status) {
    if !e.taskRun then (e, Ok)
    else (Send(e.(bits := e.bits.(destroyed := false)), Command(CmdDestroy)), if |e.queue| < QUEUE_SIZE then Ok else Fail)
  }

  // ---- The element object ------------------------------------------------

  class Element {
    var state: State
    var isOpen: bool
    var isRunning: bool
    var taskRun: bool
    var waits: bool
    var bits: Bits
    var queue: seq<Msg>
    ghost var calls: seq<Call>

    ghost function Now(): El
      reads this
    {
      El(state, isOpen, isRunning, taskRun, waits, bits, queue, calls)
    }

    constructor ()
      ensures Now() == Fresh
    {
      state := Init;
      isOpen, isRunning, taskRun, waits := false, false, false, false;
      bits := Bits(false, false, false, false, false);
      queue, calls := [], [];
    }

    method CmdSend(m: Msg) returns (r: Status)
      modifies this
      ensures Now() == Send(old(Now()), m)
      ensures r.Ok? <==> old(|queue|) < QUEUE_SIZE
    {
      if |queue| >= QUEUE_SIZE {
        return Fail;
      }
      queue := queue + [m];
      return Ok;
    }

    /** Messages sent by others, in order. */
    method Arrive(ms: seq<Msg>)
      modifies this
      ensures Now() == SendAll(old(Now()), ms)
    {
      var i := 0;
      while i < |ms|
        invariant 0 <= i <= |ms|
        invariant SendAll(Now(), ms[i..]) == SendAll(old(Now()), ms)
      {
        assert ms[i..][1..] == ms[i + 1..];
        var _ := CmdSend(ms[i]);
        i := i + 1;
      }
    }

    method CloseNow()
      modifies this
      ensures Now() == CloseIfOpen(old(Now()))
    {
      if isOpen {
        calls := calls + [Close];
        isOpen := false;
      }
    }

    method ProcessStateInit(t: Turn) returns (ok: bool)
      modifies this
      ensures Now() == OpenEl(old(Now()), t) && ok == t.openOk
    {
      isOpen := true;
      calls := calls + [Open(t.openOk)];
      Arrive(t.byOpen);
      if t.openOk {
        state := Running;
        bits := bits.(started := true);
        return true;
      }
      var _ := CmdSend(Msg(true, CmdError));
      return false;
    }

    /** The case AEL_MSG_CMD_RESUME. */
    method OnResume(t: Turn) returns (ok: bool)
      modifies this
      ensures Now() == Resumed(old(Now()), t)
      ensures ok <==> (old(state) == Running || t.openOk)
    {
      if state == Running {
        isRunning := true;
        return true;
      }
      ok := ProcessStateInit(t);
      if ok {
        waits := false;
        bits := bits.(stopped := false);
        isRunning := true;
      }
    }

    method Halt(s: State)
      modifies this
      ensures Now() == Halted(old(Now()), s, old(bits))
    {
      CloseNow();
      state := s;
      waits := true;
      isRunning := false;
    }

    method OnCommand(m: Msg, t: Turn) returns (ok: bool)
      modifies this
      ensures Now() == OnCmd(old(Now()), m, t)
      ensures ok <==> Accepts(old(Now()), m, t)
    {
      if !m.ours {
        return false;
      }
      ok := true;
      match m.cmd {
        case CmdError =>
          Halt(Error);
          bits := bits.(stopped := true);
        case CmdFinish =>
          Halt(Finished);
          bits := bits.(stopped := true);
        case CmdStop =>
          if state != Finished && state != Stopped {
            Halt(Stopped);
          } else {
            state := Stopped;
          }
          bits := bits.(stopped := true);
        case CmdPause =>
          Halt(Paused);
          bits := bits.(paused := true);
        case CmdResume =>
          ok := OnResume(t);
        case CmdDestroy =>
          taskRun := false;
          isRunning := false;
          ok := false;
        case CmdOther =>
      }
    }

    method ProcessStateRunning(t: Turn)
      modifies this
      ensures Now() == RunOnce(old(Now()), t)
    {
      if state == NoState || state == Init || !isOpen {
        return;
      }
      calls := calls + [Process(t.result)];
      Arrive(t.byProcess);
      if t.result == IO_DONE || t.result == IO_OK {
        var _ := CmdSend(Msg(true, CmdFinish));
      } else if t.result == IO_FAIL || t.result == PROCESS_FAIL {
        var _ := CmdSend(Msg(true, CmdError));
      }
    }

    /** The loop of the task over the turns `ts`, and its clean-up once the loop is left. */
    method Task(ts: seq<Turn>)
      modifies this
      ensures Now() == RunTask(old(Now()), ts)
    {
      var i := 0;
      while i < |ts| && taskRun
        invariant 0 <= i <= |ts|
        invariant RunTask(Now(), ts[i..]) == RunTask(old(Now()), ts)
      {
        assert ts[i..][1..] == ts[i + 1..] && ts[i..][0] == ts[i];
        TakeTurn(ts[i]);
        i := i + 1;
      }
    }

    method WaitingCmdMsg(t: Turn) returns (ok: bool)
      modifies this
      ensures Now() == Received(old(Now()), t)
      ensures ok <==> GoesOn(old(Now()), t)
    {
      if queue == [] {
        return true;
      }
      var m := queue[0];
      queue := queue[1..];
      ok := OnCommand(m, t);
    }

    method Leave()
      modifies this
      ensures Now() == Exit(old(Now()))
    {
      CloseNow();
      bits := bits.(destroyed := true);
      taskRun := false;
    }

    method TakeTurn(t: Turn)
      modifies this
      ensures Now() == Iterate(old(Now()), t)
    {
      Arrive(t.before);
      if queue == [] && waits {
        return;
      }
      var ok := WaitingCmdMsg(t);
      if !ok {
        Leave();
        return;
      }
      ProcessStateRunning(t);
    }

    /** Starts the task and lets it come to its loop. */
    method Run()
      modifies this
      ensures Now() == RunApi(old(Now()))
    {
      if taskRun {
        return;
      }
      queue := [];
      bits := bits.(created := false, stopped := false);
      taskRun := true;
      bits := bits.(created := true);
      state := Init;
      waits := true;
      bits := bits.(stopped := false);
    }

    method Stop() returns (r: Status)
      modifies this
      ensures (Now(), r) == StopApi(old(Now()))
    {
      if !taskRun {
        return Fail;
      }
      if state == Stopped {
        return Ok;
      }
      r := CmdSend(Msg(true, CmdStop));
    }

    method Pause() returns (r: Status)
      modifies this
      ensures (Now(), r) == PauseApi(old(Now()))
    {
      if !taskRun {
        return Fail;
      }
      if state != NoState && state != Init && state != Running {
        return Ok;
      }
      bits := bits.(paused := false);
      r := CmdSend(Msg(true, CmdPause));
    }

    method Resume() returns (r: Status)
      modifies this
      ensures (Now(), r) == ResumeApi(old(Now()))
    {
      if !taskRun {
        return Fail;
      }
      if isRunning || state == Running {
        return Ok;
      }
      if state == Error {
        return Fail;
      }
      if state == Finished {
        return Ok;
      }
      var _ := CmdSend(Msg(true, CmdResume));
      return Ok;
    }

    method Terminate() returns (r: Status)
      modifies this
      ensures (Now(), r) == TerminateApi(old(Now()))
    {
      if !taskRun {
        return Ok;
      }
      bits := bits.(destroyed := false);
      r := CmdSend(Msg(true, CmdDestroy));
    }
  }
}
