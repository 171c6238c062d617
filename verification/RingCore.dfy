/** The circular byte buffer of components/audio_pipeline/ringbuf.c: its cursors and
    the two memcpy-with-wrap critical sections. */
module RingCore {

  import opened Basics

  /** What the mutex protects. `pr` and `pw` are offsets from `p_o`; because the wrap test is
      `>` and not `>=`, either may rest at `|buf|`, which denotes the same slot as 0. */
  datatype Core = Core(buf: seq<byte>, pr: nat, pw: nat, fill: nat) {

    function Size(): nat { |buf| }

    ghost predicate Valid() {
      && pr <= Size() && pw <= Size() && fill <= Size()
      && Congruent(pw, pr + fill, Size())
    }

    function Slot(i: nat): (j: nat)
      requires pr <= Size() && i < Size()
      ensures j < Size()
    {
      if pr + i < Size() then pr + i else pr + i - Size()
    }

    /** The bytes a reader has still to see, oldest first. */
    ghost function Contents(): (s: seq<byte>)
      requires Valid()
      ensures |s| == fill
    {
      seq(fill, i requires 0 <= i < fill => buf[Slot(i)])
    }
  }

  /** a and b name the same slot of a ring of n slots (both at most 2n). */
  ghost predicate Congruent(a: nat, b: nat, n: nat) {
    a == b || a + n == b || a + 2 * n == b
  }

  function Advance(p: nat, n: nat, size: nat): nat
    requires p <= size && n <= size
  {
    if p + n > size then n - (size - p) else p + n
  }

  /** The one or two memcpy calls of a reader. */
  function CopyOut(c: Core, n: nat): seq<byte>
    requires c.pr <= c.Size() && n <= c.Size()
  {
    if c.pr + n > c.Size() then c.buf[c.pr..] + c.buf[..n - (c.Size() - c.pr)]
    else c.buf[c.pr..c.pr + n]
  }

  function Pop(c: Core, n: nat): Core
    requires c.pr <= c.Size() && n <= c.fill <= c.Size()
  {
    c.(pr := Advance(c.pr, n, c.Size()), fill := c.fill - n)
  }

  /** The one or two memcpy calls of a writer. */
  function CopyIn(c: Core, d: seq<byte>): (b: seq<byte>)
    requires c.pw <= c.Size() && |d| <= c.Size()
    ensures |b| == c.Size()
  {
    if c.pw + |d| > c.Size() then
      var first := c.Size() - c.pw;
      d[first..] + c.buf[|d| - first..c.pw] + d[..first]
    else
      c.buf[..c.pw] + d + c.buf[c.pw + |d|..]
  }

  function Push(c: Core, d: seq<byte>): Core
    requires c.pw <= c.Size() && |d| <= c.Size()
  {
    c.(buf := CopyIn(c, d), pw := Advance(c.pw, |d|, c.Size()), fill := c.fill + |d|)
  }

  /** A reader's section takes the oldest n bytes and nothing else. */
  lemma PopIsDequeue(c: Core, n: nat)
    requires c.Valid() && n <= c.fill
    ensures Pop(c, n).Valid()
    ensures CopyOut(c, n) == c.Contents()[..n]
    ensures Pop(c, n).Contents() == c.Contents()[n..]
  {
    var c' := Pop(c, n);
    forall i | 0 <= i < c'.fill
      ensures c'.Contents()[i] == c.Contents()[n..][i]
    {
      assert c'.Slot(i) == c.Slot(n + i);
    }
    var out := CopyOut(c, n);
    forall i | 0 <= i < n
      ensures out[i] == c.Contents()[i]
    {
      assert out[i] == c.buf[c.Slot(i)];
    }
  }

  /** A writer's section appends its bytes and overwrites no unread one, for every position of
      the two cursors, the resting offset `size` included. */
  lemma PushIsEnqueue(c: Core, d: seq<byte>)
    requires c.Valid() && |d| <= c.Size() - c.fill
    ensures Push(c, d).Valid()
    ensures Push(c, d).Contents() == c.Contents() + d
  {
    var c' := Push(c, d);
    forall i | 0 <= i < c'.fill
      ensures c'.Contents()[i] == (c.Contents() + d)[i]
    {
      var j := c'.Slot(i);
      if i < c.fill {
        PushKeeps(c, d, i);
      } else {
        PushStores(c, d, i - c.fill);
      }
    }
  }

  lemma PushKeeps(c: Core, d: seq<byte>, i: nat)
    requires c.Valid() && |d| <= c.Size() - c.fill && i < c.fill
    ensures CopyIn(c, d)[c.Slot(i)] == c.buf[c.Slot(i)]
  {
    var j := c.Slot(i);
    if c.pw + |d| > c.Size() {
      assert |d| - (c.Size() - c.pw) <= j < c.pw;
    } else {
      assert j < c.pw || c.pw + |d| <= j;
    }
  }

  lemma PushStores(c: Core, d: seq<byte>, k: nat)
    requires c.Valid() && |d| <= c.Size() - c.fill && k < |d|
    ensures CopyIn(c, d)[c.Slot(c.fill + k)] == d[k]
  {
    var j := c.Slot(c.fill + k);
    var first := c.Size() - c.pw;
    if c.pw + |d| > c.Size() {
      assert if k < first then j == c.pw + k else j == k - first;
    } else {
      assert j == c.pw + k;
    }
  }

  /** Whole four-byte words in n bytes: the source masks with 0xfffffffc. */
  function Words(n: nat): (w: nat)
    ensures 4 * w <= n < 4 * w + 4
  {
    if n < 4 then 0 else 1 + Words(n - 4)
  }

  /** How many bytes one reader section takes: whole words only, unless the rest of the call fits. */
  function ReadSize(fill: nat, want: nat): (n: nat)
    ensures n <= fill && n <= want
    ensures n == 0 <==> want == 0 || (fill < want && fill < 4)
    ensures n < want ==> fill < want && n == 4 * Words(fill) && fill - n < 4
  {
    if fill < want then 4 * Words(fill) else want
  }

  /** A second section right after a short one finds nothing to take. */
  lemma ShortReadStarves(fill: nat, want: nat)
    requires ReadSize(fill, want) < want
    ensures ReadSize(fill - ReadSize(fill, want), want - ReadSize(fill, want)) == 0
  {
  }

  function WriteSize(avail: nat, want: nat): (n: nat)
    ensures n <= avail && n <= want
    ensures n == want || n == avail
  {
    if want < avail then want else avail
  }
}
