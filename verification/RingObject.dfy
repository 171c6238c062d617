/** The ring buffer object of components/audio_pipeline/ringbuf.c. Its methods are the calls as
    they run when no other task interferes; RingControl has the interleavings. A blocking take
    then either finds its token or times out. */
module RingObject {
  import opened Basics
  import opened RingCore

  const RB_OK: int := 0
  const RB_FAIL: int := -1
  const RB_DONE: int := -2
  const RB_ABORT: int := -3
  const RB_TIMEOUT: int := -4

  /** What a call returns: an abort hides the bytes already moved, any other code does not. */
  function CallResult(total: nat, code: int): int {
    if code == RB_FAIL || code == RB_ABORT then code
    else if total > 0 then total
    else code
  }

  /** The code a starved call leaves with, in the order the flags are tested. */
  function Starved(done: bool, abort: bool): int {
    if done then RB_DONE else if abort then RB_ABORT else RB_TIMEOUT
  }

  lemma SliceFurther(q: seq<byte>, k: nat, n: nat)
    requires k + n <= |q|
    ensures q[..k] + q[k..][..n] == q[..k + n]
    ensures q[k..][n..] == q[k + n..]
  {
  }

  class RingBuffer {
    const store: array<byte>
    var pr: nat
    var pw: nat
    var fill: nat
    var canRead: bool
    var canWrite: bool
    var abortRead: bool
    var abortWrite: bool
    var isDoneWrite: bool
    var unblockReader: bool

    ghost function View(): Core
      reads this, store
    {
      Core(store[..], pr, pw, fill)
    }

    ghost predicate Valid()
      reads this, store
    {
      View().Valid()
    }

    ghost function Contents(): seq<byte>
      reads this, store
      requires Valid()
    {
      View().Contents()
    }

    constructor (size: nat)
      ensures Valid() && fresh(store) && store.Length == size
      ensures Contents() == []
      ensures !canRead && !canWrite && !abortRead && !abortWrite && !isDoneWrite && !unblockReader
    {
      store := new byte[size](_ => 0);
      pr, pw, fill := 0, 0, 0;
      canRead, canWrite := false, false;
      abortRead, abortWrite, isDoneWrite, unblockReader := false, false, false, false;
    }

    /** `rb_create`; `memory` says whether the allocations succeed. */
    static method Create(blockSize: int, blocks: nat, memory: bool) returns (rb: RingBuffer?)
      ensures rb == null <==> blockSize < 2 || !memory
      ensures rb != null ==> fresh(rb) && fresh(rb.store) && rb.store.Length == blockSize * blocks
      ensures rb != null ==> rb.Valid() && rb.Contents() == [] && !rb.canRead && !rb.canWrite
      ensures rb != null ==> !rb.abortRead && !rb.abortWrite && !rb.isDoneWrite && !rb.unblockReader
    {
      if blockSize < 2 || !memory {
        return null;
      }
      rb := new RingBuffer(blockSize * blocks);
    }

    /** `rb_reset`: whatever state the cursors were in. */
    method Reset()
      modifies this
      ensures Valid() && Contents() == []
      ensures !abortRead && !abortWrite && !isDoneWrite && !unblockReader
      ensures canRead == old(canRead) && canWrite == old(canWrite)
    {
      pr, pw, fill := 0, 0, 0;
      abortRead, abortWrite, isDoneWrite, unblockReader := false, false, false, false;
    }

    method DoneWrite()
      modifies this
      ensures View() == old(View())
      ensures isDoneWrite && canRead
      ensures canWrite == old(canWrite) && unblockReader == old(unblockReader)
      ensures abortRead == old(abortRead) && abortWrite == old(abortWrite)
    {
      isDoneWrite := true;
      canRead := true;
    }

    /** memcpy out of the buffer, in two pieces when the bytes wrap. */
    method CopyFromStore(n: nat) returns (out: seq<byte>)
      requires Valid() && n <= fill
      modifies this`pr
      ensures out == CopyOut(old(View()), n) && pr == Advance(old(pr), n, store.Length)
    {
      if pr + n > store.Length {
        var rlen1 := store.Length - pr;
        var rlen2 := n - rlen1;
        out := store[pr..pr + rlen1] + store[..rlen2];
        pr := rlen2;
      } else {
        out := store[pr..pr + n];
        pr := pr + n;
      }
    }

    /** A reader's critical section: up to `want` bytes leave the buffer. */
    method ReadSection(want: nat) returns (out: seq<byte>)
      requires Valid()
      modifies this`pr, this`fill
      ensures Valid() && |out| == ReadSize(old(fill), want)
      ensures out == old(Contents())[..|out|] && Contents() == old(Contents())[|out|..]
    {
      var n := ReadSize(fill, want);
      PopIsDequeue(View(), n);
      out := CopyFromStore(n);
      fill := fill - n;
      assert View() == Pop(old(View()), n);
    }

    method CopyBytes(at: nat, d: seq<byte>)
      requires at + |d| <= store.Length
      modifies store
      ensures store[..] == old(store[..at]) + d + old(store[at + |d|..])
    {
      forall i | 0 <= i < |d| {
        store[at + i] := d[i];
      }
    }

    lemma TwoPieces(b: seq<byte>, b1: seq<byte>, b2: seq<byte>, d: seq<byte>, at: nat)
      requires at <= |b| < at + |d| && |d| <= |b|
      requires b1 == b[..at] + d[..|b| - at] + b[|b|..]
      requires var rest := d[|b| - at..]; b2 == b1[..0] + rest + b1[|rest|..]
      ensures b2 == d[|b| - at..] + b[|d| - (|b| - at)..at] + d[..|b| - at]
    {
    }

    /** memcpy into the buffer, in two pieces when the bytes wrap. */
    method CopyIntoStore(d: seq<byte>)
      requires Valid() && |d| <= store.Length
      modifies this`pw, store
      ensures store[..] == CopyIn(old(View()), d) && pw == Advance(old(pw), |d|, store.Length)
    {
      if pw + |d| > store.Length {
        var wlen1 := store.Length - pw;
        var wlen2 := |d| - wlen1;
        ghost var b := store[..];
        CopyBytes(pw, d[..wlen1]);
        ghost var b1 := store[..];
        CopyBytes(0, d[wlen1..]);
        TwoPieces(b, b1, store[..], d, pw);
        pw := wlen2;
      } else {
        CopyBytes(pw, d);
        pw := pw + |d|;
      }
    }

    /** A writer's critical section: up to all of `src` enters the buffer. */
    method WriteSection(src: seq<byte>) returns (n: nat)
      requires Valid()
      modifies this`pw, this`fill, store
      ensures Valid() && n == WriteSize(store.Length - old(fill), |src|)
      ensures Contents() == old(Contents()) + src[..n]
    {
      n := WriteSize(store.Length - fill, |src|);
      PushIsEnqueue(View(), src[..n]);
      CopyIntoStore(src[..n]);
      fill := fill + n;
      assert View() == Push(old(View()), src[..n]);
    }

    /** The loop of `rb_read`: sections until the request is met or the reader starves. */
    method ReadLoop(bufLen: nat) returns (out: seq<byte>, code: int)
      requires Valid()
      modifies this`pr, this`fill, this`canRead
      ensures Valid() && |out| == ReadSize(old(fill), bufLen)
      ensures out == old(Contents())[..|out|] && Contents() == old(Contents())[|out|..]
      ensures code == if |out| == bufLen then RB_OK else Starved(isDoneWrite, abortRead)
    {
      ghost var q := Contents();
      out, code := [], RB_OK;
      while |out| < bufLen
        invariant Valid() && |out| <= bufLen && |out| <= |q|
        invariant out == q[..|out|] && Contents() == q[|out|..]
        invariant out == [] || |out| == ReadSize(|q|, bufLen)
        decreases bufLen - |out|, canRead
      {
        if out != [] {
          ShortReadStarves(|q|, bufLen);
        }
        var chunk := ReadSection(bufLen - |out|);
        if chunk != [] {
          SliceFurther(q, |out|, |chunk|);
          out := out + chunk;
        } else {
          if isDoneWrite {
            return out, RB_DONE;
          }
          if abortRead {
            return out, RB_ABORT;
          }
          if unblockReader || !canRead {
            return out, RB_TIMEOUT;
          }
          canRead := false;
        }
      }
    }

    /** `rb_read` running alone: it delivers the whole request when the buffer holds it, else the
        whole words it holds, oldest first, and only a delivery wakes a writer. */
    method Read(bufLen: nat) returns (out: seq<byte>, ret: int)
      requires Valid()
      modifies this`pr, this`fill, this`canRead, this`canWrite, this`unblockReader
      ensures Valid() && |out| == ReadSize(old(fill), bufLen)
      ensures out == old(Contents())[..|out|] && Contents() == old(Contents())[|out|..]
      ensures ret == CallResult(|out|, if |out| == bufLen then RB_OK else Starved(isDoneWrite, abortRead))
      ensures |out| == if old(fill) < bufLen then old(fill) / 4 * 4 else bufLen
      ensures |out| == bufLen ==> ret == bufLen
      ensures |out| < bufLen && isDoneWrite ==> ret == if out == [] then -2 else |out|
      ensures |out| < bufLen && !isDoneWrite && abortRead ==> ret == -3
      ensures |out| < bufLen && !isDoneWrite && !abortRead ==> ret == if out == [] then -4 else |out|
      ensures canWrite == (old(canWrite) || out != [])
      ensures !unblockReader
    {
      var code;
      out, code := ReadLoop(bufLen);
      if |out| > 0 {
        canWrite := true;
      }
      unblockReader := false;
      ret := CallResult(|out|, code);
    }

    /** The loop of `rb_write`. */
    method WriteLoop(src: seq<byte>) returns (total: nat, code: int)
      requires Valid()
      modifies this`pw, this`fill, this`canWrite, store
      ensures Valid() && total == WriteSize(store.Length - old(fill), |src|)
      ensures Contents() == old(Contents()) + src[..total]
      ensures code == if total == |src| then RB_OK else Starved(isDoneWrite, abortWrite)
    {
      ghost var q := Contents();
      total, code := 0, RB_OK;
      while total < |src|
        invariant Valid() && total <= |src|
        invariant total == 0 || total == WriteSize(store.Length - |q|, |src|)
        invariant Contents() == q + src[..total]
        decreases |src| - total, canWrite
      {
        var n := WriteSection(src[total..]);
        if n > 0 {
          assert src[..total] + src[total..][..n] == src[..total + n];
          total := total + n;
        } else {
          if isDoneWrite {
            return total, RB_DONE;
          }
          if abortWrite {
            return total, RB_ABORT;
          }
          if !canWrite {
            return total, RB_TIMEOUT;
          }
          canWrite := false;
        }
      }
    }

    /** `rb_write` running alone: it takes as many bytes as fit, in order, and only a transfer
        wakes a reader. A full buffer that is marked done or aborted refuses at once. */
    method Write(src: seq<byte>) returns (ret: int)
      requires Valid()
      modifies this`pw, this`fill, this`canRead, this`canWrite, store
      ensures Valid()
      ensures var n := WriteSize(store.Length - old(fill), |src|);
              && Contents() == old(Contents()) + src[..n]
              && ret == CallResult(n, if n == |src| then RB_OK else Starved(isDoneWrite, abortWrite))
              && canRead == (old(canRead) || n > 0)
      ensures var room, want := store.Length - old(fill), |src|;
              var n := if want <= room then want else room;
              && Contents() == old(Contents()) + src[..n]
              && (n == want ==> ret == want)
              && (n < want && isDoneWrite ==> ret == if n == 0 then -2 else n)
              && (n < want && !isDoneWrite && abortWrite ==> ret == -3)
              && (n < want && !isDoneWrite && !abortWrite ==> ret == if n == 0 then -4 else n)
    {
      var total, code := WriteLoop(src);
      if total > 0 {
        canRead := true;
      }
      ret := CallResult(total, code);
    }
  }
}
