/** Linking the elements of an audio pipeline by ring buffers: link, unlink, breakup and relink of
    components/audio_pipeline/audio_pipeline.c. */
module PipelineLinks {

  import opened Basics

  /** Elements and ring buffers are known by number; buffer numbers are never used twice. */
  type El = nat
  type Rb = nat

  /** An entry of el_list. Tags are compared without regard to case, so they stand here folded. */
  datatype Item = Item(el: El, tag: string, linked: bool, kept: bool)

  /** An entry of rb_list; `host` is the element the buffer was created for. */
  datatype Buf = Buf(id: Rb, host: El, linked: bool, kept: bool)

  /** `input` and `output` are the ring buffers the elements hold, `data` what the buffers hold,
      `next` the number of the next buffer, `destroyed` those destroyed so far. */
  datatype Pipe = Pipe(
    items: seq<Item>, bufs: seq<Buf>, input: map<El, Rb>, output: map<El, Rb>, linked: bool,
    next: Rb, data: map<Rb, seq<byte>>, destroyed: seq<Rb>)

  function Lookup(m: map<El, Rb>, e: El): Option<Rb> {
    if e in m then Some(m[e]) else None
  }

  // ---- Searching the lists -----------------------------------------------

  /** The first entry from position `i` on with this tag. */
  function FirstTag(items: seq<Item>, tag: string, i: nat): (r: Option<nat>)
    ensures r.Some? ==> i <= r.value < |items| && items[r.value].tag == tag
    ensures r.Some? ==> forall j | i <= j < r.value :: items[j].tag != tag
    ensures r.None? ==> forall j | i <= j < |items| :: items[j].tag != tag
    decreases |items| - i
  {
    if i >= |items| then None else if items[i].tag == tag then Some(i) else FirstTag(items, tag, i + 1)
  }

  /** What a search of rb_list looks for: a given buffer, a buffer made for an element, or one
      that is neither linked nor kept. */
  datatype Want = ById(id: Rb) | ByHost(el: El) | Unused

  predicate Fits(b: Buf, w: Want) {
    match w
    case ById(id) => b.id == id
    case ByHost(el) => b.host == el
    case Unused => !b.linked && !b.kept
  }

  function FirstBuf(bufs: seq<Buf>, w: Want, i: nat): (r: Option<nat>)
    ensures r.Some? ==> i <= r.value < |bufs| && Fits(bufs[r.value], w)
    ensures r.Some? ==> forall j | i <= j < r.value :: !Fits(bufs[j], w)
    ensures r.None? ==> forall j | i <= j < |bufs| :: !Fits(bufs[j], w)
    decreases |bufs| - i
  {
    if i >= |bufs| then None else if Fits(bufs[i], w) then Some(i) else FirstBuf(bufs, w, i + 1)
  }

  // ---- Steps -------------------------------------------------------------

  function Mark(p: Pipe, j: nat, linked: bool, kept: bool): Pipe
    requires j < |p.items|
  {
    p.(items := p.items[j := p.items[j].(linked := linked, kept := kept)])
  }

  function MarkBuf(p: Pipe, r: nat, linked: bool, kept: bool): Pipe
    requires r < |p.bufs|
  {
    p.(bufs := p.bufs[r := p.bufs[r].(linked := linked, kept := kept)])
  }

  /** Setting a ring buffer of an element; NULL changes nothing. */
  function SetIn(p: Pipe, e: El, rb: Option<Rb>): Pipe {
    if rb.None? then p else p.(input := p.input[e := rb.value])
  }

  function SetOut(p: Pipe, e: El, rb: Option<Rb>): Pipe {
    if rb.None? then p else p.(output := p.output[e := rb.value])
  }

  function Create(p: Pipe, host: El, kept: bool): Pipe {
    p.(bufs := p.bufs + [Buf(p.next, host, true, kept)], next := p.next + 1, data := p.data[p.next := []])
  }

  // ---- Link and unlink ---------------------------------------------------

  function LinkStep(p: Pipe, j: nat, last: bool, rb: Option<Rb>): Pipe
    requires j < |p.items|
  {
    var e := p.items[j].el;
    var p1 := SetIn(Mark(p, j, true, true), e, rb);
    if last then p1 else SetOut(Create(p1, e, true), e, Some(p.next))
  }

  function LinkFrom(p: Pipe, tags: seq<string>, i: nat, rb: Option<Rb>): (Pipe, bool)
    decreases |tags| - i
  {
    if i >= |tags| then (p.(linked := true), true)
    else
      var j := FirstTag(p.items, tags[i], 0);
      if j.None? then (p, false)
      else
        var last := i == |tags| - 1;
        LinkFrom(LinkStep(p, j.value, last, rb), tags, i + 1, if last then rb else Some(p.next))
  }

  /** The entries from position `i` on lose their marks if they are linked. */
  function UnlinkFrom(items: seq<Item>, i: nat): seq<Item>
    decreases |items| - i
  {
    if i >= |items| then items
    else if items[i].linked then UnlinkFrom(items[i := items[i].(linked := false, kept := false)], i + 1)
    else UnlinkFrom(items, i + 1)
  }

  function Ids(bufs: seq<Buf>): (ids: seq<Rb>)
    ensures |ids| == |bufs| && forall i | 0 <= i < |ids| :: ids[i] == bufs[i].id
  {
    if bufs == [] then [] else Ids(bufs[..|bufs| - 1]) + [bufs[|bufs| - 1].id]
  }

  lemma NextId(a: seq<Rb>, bufs: seq<Buf>)
    requires bufs != []
    ensures a + [bufs[0].id] + Ids(bufs[1..]) == a + Ids(bufs)
  {
    assert [bufs[0].id] + Ids(bufs[1..]) == Ids(bufs);
  }

  function Unlink(p: Pipe): Pipe {
    if !p.linked then p
    else p.(items := UnlinkFrom(p.items, 0), bufs := [], destroyed := p.destroyed + Ids(p.bufs), linked := false)
  }

  function Link(p: Pipe, tags: seq<string>): (Pipe, bool) {
    LinkFrom(Unlink(p), tags, 0, None)
  }

  // ---- Breakup -----------------------------------------------------------

  /** What breaking up does to one element: nothing; only unlink it; unlink it and give up the
      buffer it writes to; or keep both. */
  datatype Verdict = Leave | Detach | Release(r: nat) | Retain(r: nat)

  /** `seek` says that no element has been kept yet, `kept` is the one the caller wants kept. */
  function Judge(p: Pipe, j: nat, seek: bool, kept: Option<El>): (v: Verdict)
    requires j < |p.items|
    ensures v.Release? || v.Retain? ==> v.r < |p.bufs| && Lookup(p.output, p.items[j].el) == Some(p.bufs[v.r].id)
  {
    var it := p.items[j];
    var out := Lookup(p.output, it.el);
    var r := if out.None? then None else FirstBuf(p.bufs, ById(out.value), 0);
    if !it.linked then Leave
    else if !seek && kept != Some(it.el) then
      if out.None? then (if p.bufs == [] then Leave else Detach)
      else if r.None? then Leave
      else Release(r.value)
    else if r.None? then Leave
    else Retain(r.value)
  }

  function MarkBoth(p: Pipe, j: nat, r: nat, kept: bool): Pipe
    requires j < |p.items| && r < |p.bufs|
  {
    MarkBuf(Mark(p, j, false, kept), r, p.bufs[r].linked, kept)
  }

  function BreakItem(p: Pipe, j: nat, seek: bool, kept: Option<El>): (Pipe, bool)
    requires j < |p.items|
  {
    match Judge(p, j, seek, kept)
    case Leave => (p, seek)
    case Detach => (Mark(p, j, false, false), seek)
    case Release(r) => (MarkBoth(p, j, r, false), seek)
    case Retain(r) => (MarkBoth(p, j, r, true), false)
  }

  function BreakFrom(p: Pipe, j: nat, seek: bool, kept: Option<El>): Pipe
    decreases |p.items| - j
  {
    if j >= |p.items| then p
    else
      var (p1, seek1) := BreakItem(p, j, seek, kept);
      BreakFrom(p1, j + 1, seek1, kept)
  }

  /** Buffers that are not kept are emptied and become free for use. */
  function ResetFrom(p: Pipe, r: nat): Pipe
    decreases |p.bufs| - r
  {
    if r >= |p.bufs| then p
    else if p.bufs[r].kept then ResetFrom(p, r + 1)
    else
      var p1 := MarkBuf(p, r, false, false);
      ResetFrom(p1.(data := p1.data[p.bufs[r].id := []]), r + 1)
  }

  function Breakup(p: Pipe, kept: Option<El>): Pipe {
    ResetFrom(BreakFrom(p, 0, true, kept), 0).(linked := false)
  }

  // ---- Relink ------------------------------------------------------------

  /** The buffer an element will write to: its own if it was kept, otherwise an unused one. */
  function Pick(p: Pipe, j: nat): Option<nat>
    requires j < |p.items|
  {
    FirstBuf(p.bufs, if p.items[j].kept then ByHost(p.items[j].el) else Unused, 0)
  }

  /** The state with that buffer taken, or created where there is none and one is needed. */
  function Claim(p: Pipe, j: nat, last: bool): (Pipe, Option<Rb>)
    requires j < |p.items|
  {
    var it := p.items[j];
    var p1 := Mark(p, j, true, it.kept);
    var r := Pick(p, j);
    if r.Some? then (MarkBuf(p1, r.value, true, p.bufs[r.value].kept), Some(p.bufs[r.value].id))
    else if !last then (Create(p1, it.el, false), Some(p.next))
    else (p1, None)
  }

  function RelinkStep(p: Pipe, j: nat, last: bool, rb: Option<Rb>): (Pipe, Option<Rb>)
    requires j < |p.items|
  {
    var e := p.items[j].el;
    var (p1, cur) := Claim(p, j, last);
    var p2 := SetIn(p1, e, rb);
    if last then (p2, rb) else (SetOut(p2, e, cur), cur)
  }

  function RelinkFrom(p: Pipe, tags: seq<string>, i: nat, rb: Option<Rb>): (Pipe, bool)
    decreases |tags| - i
  {
    if i >= |tags| then (p, true)
    else
      var j := FirstTag(p.items, tags[i], 0);
      if j.None? then (p, false)
      else
        var (p1, rb1) := RelinkStep(p, j.value, i == |tags| - 1, rb);
        RelinkFrom(p1, tags, i + 1, rb1)
  }

  function Relink(p: Pipe, tags: seq<string>): (Pipe, bool) {
    if p.linked then (p, false) else RelinkFrom(p, tags, 0, None)
  }

  // ---- The pipeline object -----------------------------------------------

  class Pipeline {
    var items: seq<Item>
    var bufs: seq<Buf>
    var input: map<El, Rb>
    var output: map<El, Rb>
    var linked: bool
    var next: Rb
    var data: map<Rb, seq<byte>>
    var destroyed: seq<Rb>

    ghost function Now(): Pipe
      reads this
    {
      Pipe(items, bufs, input, output, linked, next, data, destroyed)
    }

    constructor (items: seq<Item>)
      ensures Now() == Pipe(items, [], map[], map[], false, 0, map[], [])
    {
      this.items := items;
      bufs, input, output, linked := [], map[], map[], false;
      next, data, destroyed := 0, map[], [];
    }

    method ItemByTag(tag: string) returns (r: Option<nat>)
      ensures r == FirstTag(items, tag, 0)
    {
      var i := 0;
      while i < |items|
        invariant 0 <= i <= |items|
        invariant FirstTag(items, tag, i) == FirstTag(items, tag, 0)
      {
        if items[i].tag == tag {
          return Some(i);
        }
        i := i + 1;
      }
      return None;
    }

    method FindBuf(w: Want) returns (r: Option<nat>)
      ensures r == FirstBuf(bufs, w, 0)
    {
      var i := 0;
      while i < |bufs|
        invariant 0 <= i <= |bufs|
        invariant FirstBuf(bufs, w, i) == FirstBuf(bufs, w, 0)
      {
        if Fits(bufs[i], w) {
          return Some(i);
        }
        i := i + 1;
      }
      return None;
    }

    method SetInputRingbuf(e: El, rb: Option<Rb>)
      modifies this
      ensures Now() == SetIn(old(Now()), e, rb)
    {
      if rb.Some? {
        input := input[e := rb.value];
      }
    }

    method SetOutputRingbuf(e: El, rb: Option<Rb>)
      modifies this
      ensures Now() == SetOut(old(Now()), e, rb)
    {
      if rb.Some? {
        output := output[e := rb.value];
      }
    }

    method CreateRingbuf(host: El, kept: bool) returns (rb: Rb)
      modifies this
      ensures Now() == Create(old(Now()), host, kept) && rb == old(next)
    {
      rb := next;
      bufs := bufs + [Buf(rb, host, true, kept)];
      data := data[rb := []];
      next := next + 1;
    }

    method UnlinkPipeline()
      modifies this
      ensures Now() == Unlink(old(Now()))
    {
      if !linked {
        return;
      }
      UnmarkAll();
      DestroyAll();
      linked := false;
    }

    method UnmarkAll()
      modifies this
      ensures Now() == old(Now()).(items := UnlinkFrom(old(items), 0))
    {
      var i := 0;
      while i < |items|
        invariant 0 <= i <= |items|
        invariant UnlinkFrom(items, i) == UnlinkFrom(old(items), 0)
        invariant Now() == old(Now()).(items := items)
      {
        if items[i].linked {
          items := items[i := items[i].(linked := false, kept := false)];
          SetOutputRingbuf(items[i].el, None);
          SetInputRingbuf(items[i].el, None);
        }
        i := i + 1;
      }
    }

    method DestroyAll()
      modifies this
      ensures Now() == old(Now()).(bufs := [], destroyed := old(destroyed) + Ids(old(bufs)))
    {
      while bufs != []
        invariant destroyed + Ids(bufs) == old(destroyed) + Ids(old(bufs))
        invariant Now() == old(Now()).(bufs := bufs, destroyed := destroyed)
        decreases |bufs|
      {
        NextId(destroyed, bufs);
        destroyed := destroyed + [bufs[0].id];
        bufs := bufs[1..];
      }
      assert destroyed + Ids([]) == destroyed;
    }

    method LinkElements(tags: seq<string>) returns (ok: bool)
      modifies this
      ensures (Now(), ok) == Link(old(Now()), tags)
    {
      if linked {
        UnlinkPipeline();
      }
      var i, rb := 0, None;
      while i < |tags|
        invariant 0 <= i <= |tags|
        invariant LinkFrom(Now(), tags, i, rb) == Link(old(Now()), tags)
      {
        var j := ItemByTag(tags[i]);
        if j.None? {
          return false;
        }
        rb := LinkOne(j.value, i == |tags| - 1, rb);
        i := i + 1;
      }
      linked := true;
      return true;
    }

    method LinkOne(j: nat, last: bool, rb: Option<Rb>) returns (rb1: Option<Rb>)
      requires j < |items|
      modifies this
      ensures Now() == LinkStep(old(Now()), j, last, rb)
      ensures rb1 == if last then rb else Some(old(next))
    {
      items := items[j := items[j].(linked := true, kept := true)];
      var e := items[j].el;
      SetInputRingbuf(e, rb);
      rb1 := rb;
      if !last {
        var made := CreateRingbuf(e, true);
        rb1 := Some(made);
        SetOutputRingbuf(e, rb1);
      }
    }

    method BreakupElements(kept: Option<El>)
      modifies this
      ensures Now() == Breakup(old(Now()), kept)
    {
      var j, seek := 0, true;
      while j < |items|
        invariant 0 <= j <= |items|
        invariant BreakFrom(Now(), j, seek, kept) == BreakFrom(old(Now()), 0, true, kept)
      {
        seek := BreakOne(j, seek, kept);
        j := j + 1;
      }
      ResetUnkept();
      linked := false;
    }

    method BreakOne(j: nat, seek: bool, kept: Option<El>) returns (seek1: bool)
      requires j < |items|
      modifies this
      ensures (Now(), seek1) == BreakItem(old(Now()), j, seek, kept)
      ensures |items| == old(|items|)
    {
      var it := items[j];
      if !it.linked {
        return seek;
      }
      seek1 := seek;
      var out := if it.el in output then Some(output[it.el]) else None;
      var r := None;
      if out.Some? {
        r := FindBuf(ById(out.value));
      }
      if !seek && kept != Some(it.el) {
        if out.None? {
          if bufs != [] {
            items := items[j := it.(linked := false, kept := false)];
          }
        } else if r.Some? {
          items := items[j := it.(linked := false, kept := false)];
          bufs := bufs[r.value := bufs[r.value].(kept := false)];
        }
      } else if r.Some? {
        items := items[j := it.(linked := false, kept := true)];
        bufs := bufs[r.value := bufs[r.value].(kept := true)];
        seek1 := false;
      }
    }

    method ResetUnkept()
      modifies this
      ensures Now() == ResetFrom(old(Now()), 0)
    {
      var r := 0;
      while r < |bufs|
        invariant 0 <= r <= |bufs|
        invariant ResetFrom(Now(), r) == ResetFrom(old(Now()), 0)
      {
        if !bufs[r].kept {
          bufs := bufs[r := bufs[r].(linked := false)];
          data := data[bufs[r].id := []];
        }
        r := r + 1;
      }
    }

    method RelinkElements(tags: seq<string>) returns (ok: bool)
      modifies this
      ensures (Now(), ok) == Relink(old(Now()), tags)
    {
      if linked {
        return false;
      }
      var i, rb := 0, None;
      while i < |tags|
        invariant 0 <= i <= |tags|
        invariant RelinkFrom(Now(), tags, i, rb) == Relink(old(Now()), tags)
      {
        var j := ItemByTag(tags[i]);
        if j.None? {
          return false;
        }
        rb := RelinkOne(j.value, i == |tags| - 1, rb);
        i := i + 1;
      }
      return true;
    }

    method RelinkOne(j: nat, last: bool, rb: Option<Rb>) returns (rb1: Option<Rb>)
      requires j < |items|
      modifies this
      ensures (Now(), rb1) == RelinkStep(old(Now()), j, last, rb)
    {
      var e := items[j].el;
      var cur := ClaimOne(j, last);
      SetInputRingbuf(e, rb);
      if last {
        return rb;
      }
      SetOutputRingbuf(e, cur);
      return cur;
    }

    method ClaimOne(j: nat, last: bool) returns (cur: Option<Rb>)
      requires j < |items|
      modifies this
      ensures (Now(), cur) == Claim(old(Now()), j, last)
    {
      items := items[j := items[j].(linked := true)];
      var r := FindBuf(if items[j].kept then ByHost(items[j].el) else Unused);
      if r.Some? {
        bufs := bufs[r.value := bufs[r.value].(linked := true)];
        return Some(bufs[r.value].id);
      }
      if last {
        return None;
      }
      var made := CreateRingbuf(items[j].el, false);
      return Some(made);
    }
  }
}
