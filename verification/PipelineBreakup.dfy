/** Breaking up a linked pipeline: which elements are kept, and the whole round of link, breakup
    and relink. */
module PipelineBreakup {
  import opened Basics
  import opened PipelineLinks
  import opened PipelineChain

  /** Every buffer is the output of the element it was made for, and of no other. */
  ghost predicate Hosted(p: Pipe) {
    && Registered(p) && Numbered(p)
    && (forall r, s | 0 <= r < s < |p.bufs| :: p.bufs[r].host != p.bufs[s].host)
    && (forall r | 0 <= r < |p.bufs| :: Lookup(p.output, p.bufs[r].host) == Some(p.bufs[r].id))
    && (forall e, r | e in p.output && 0 <= r < |p.bufs| :: p.output[e] == p.bufs[r].id ==> e == p.bufs[r].host)
  }

  /** An element and the buffer made for it are both kept or both not. */
  ghost predicate Paired(p: Pipe) {
    forall j, r | 0 <= j < |p.items| && 0 <= r < |p.bufs| && p.items[j].el == p.bufs[r].host ::
      p.items[j].kept == p.bufs[r].kept
  }

  ghost predicate IsHost(p: Pipe, e: El) {
    exists r | 0 <= r < |p.bufs| :: p.bufs[r].host == e
  }

  /** A pipeline as `audio_pipeline_link` leaves it: the buffers were made for all elements of the
      chain but the last. */
  ghost predicate FreshlyLinked(p: Pipe, els: seq<El>) {
    && Hosted(p) && Paired(p) && Distinct(els)
    && |els| == |p.bufs| + 1
    && (forall r | 0 <= r < |p.bufs| :: p.bufs[r].host == els[r] && p.bufs[r].kept)
    && (forall j | 0 <= j < |p.items| && p.items[j].el in els :: p.items[j].linked)
  }

  // ---- One element -------------------------------------------------------

  /** Only marks differ. */
  ghost predicate SameShape(p: Pipe, q: Pipe) {
    && |p.items| == |q.items| && |p.bufs| == |q.bufs|
    && (forall j | 0 <= j < |p.items| :: p.items[j].el == q.items[j].el && p.items[j].tag == q.items[j].tag)
    && (forall r | 0 <= r < |p.bufs| :: p.bufs[r].id == q.bufs[r].id && p.bufs[r].host == q.bufs[r].host)
    && p.output == q.output && p.next == q.next
  }

  lemma SameShapeHosted(p: Pipe, q: Pipe)
    requires Hosted(p) && SameShape(p, q)
    ensures Hosted(q)
  {
  }

  lemma BreakItemShape(p: Pipe, j: nat, seek: bool, kept: Option<El>)
    requires j < |p.items|
    ensures SameShape(p, BreakItem(p, j, seek, kept).0)
    ensures OthersSame(p, BreakItem(p, j, seek, kept).0, j)
  {
    var v := Judge(p, j, seek, kept);
    if v.Release? || v.Retain? {
      MarkBothShape(p, j, v.r, v.Retain?);
    } else {
      MarkShape(p, j);
    }
  }

  /** The data and the other entries are what they were. */
  ghost predicate OthersSame(p: Pipe, q: Pipe, j: nat) {
    && q.data == p.data && |p.items| == |q.items|
    && forall k | 0 <= k < |p.items| && k != j :: q.items[k] == p.items[k]
  }

  lemma MarkShape(p: Pipe, j: nat)
    requires j < |p.items|
    ensures SameShape(p, p) && OthersSame(p, p, j)
    ensures SameShape(p, Mark(p, j, false, false)) && OthersSame(p, Mark(p, j, false, false), j)
  {
  }

  lemma MarkBothShape(p: Pipe, j: nat, r: nat, kept: bool)
    requires j < |p.items| && r < |p.bufs|
    ensures SameShape(p, MarkBoth(p, j, r, kept)) && OthersSame(p, MarkBoth(p, j, r, kept), j)
  {
  }

  /** The buffer an element of the chain writes to is found. */
  lemma OutputIsFound(p: Pipe, e: El, r: nat)
    requires Hosted(p) && r < |p.bufs| && p.bufs[r].host == e
    ensures Lookup(p.output, e) == Some(p.bufs[r].id)
    ensures FirstBuf(p.bufs, ById(p.bufs[r].id), 0) == Some(r)
  {
    var s := FirstBuf(p.bufs, ById(p.bufs[r].id), 0);
    assert Fits(p.bufs[r], ById(p.bufs[r].id));
  }

  lemma MarkBothPaired(p: Pipe, j: nat, r: nat, kept: bool)
    requires Hosted(p) && Paired(p) && j < |p.items| && r < |p.bufs| && p.bufs[r].host == p.items[j].el
    ensures Paired(MarkBoth(p, j, r, kept))
  {
    var q := MarkBoth(p, j, r, kept);
    forall k, s | 0 <= k < |q.items| && 0 <= s < |q.bufs| && q.items[k].el == q.bufs[s].host
      ensures q.items[k].kept == q.bufs[s].kept
    {
      assert p.items[k].el == p.bufs[s].host;
      assert k == j <==> s == r;
    }
  }

  lemma BreakItemPaired(p: Pipe, j: nat, seek: bool, kept: Option<El>)
    requires Hosted(p) && Paired(p) && j < |p.items|
    ensures Paired(BreakItem(p, j, seek, kept).0)
  {
    var v := Judge(p, j, seek, kept);
    if v.Release? || v.Retain? {
      assert p.output[p.items[j].el] == p.bufs[v.r].id;
      MarkBothPaired(p, j, v.r, v.Retain?);
    }
  }

  // ---- Who is kept -------------------------------------------------------

  /** Kept are the first registered element of the chain that has an output, and the element the
      caller asked for. */
  ghost predicate Retained(p: Pipe, j: nat, kept: Option<El>)
    requires j < |p.items|
  {
    kept == Some(p.items[j].el) || NoHostBefore(p, j)
  }

  ghost predicate NoHostBefore(p: Pipe, j: nat)
    requires j <= |p.items|
  {
    forall k | 0 <= k < j :: !IsHost(p, p.items[k].el)
  }

  /** Elements of the chain that have not been looked at are still linked. */
  ghost predicate Untouched(p: Pipe, j: nat) {
    forall k | j <= k < |p.items| && IsHost(p, p.items[k].el) :: p.items[k].linked
  }

  ghost predicate DecidedUpTo(p: Pipe, j: nat, kept: Option<El>)
    requires j <= |p.items|
  {
    forall k | 0 <= k < j && IsHost(p, p.items[k].el) :: p.items[k].kept <==> Retained(p, k, kept)
  }

  lemma JudgeHost(p: Pipe, j: nat, seek: bool, kept: Option<El>)
    requires Hosted(p) && j < |p.items| && p.items[j].linked && IsHost(p, p.items[j].el)
    ensures var v := Judge(p, j, seek, kept);
            if seek || kept == Some(p.items[j].el) then v.Retain? else v.Release?
  {
    var r :| 0 <= r < |p.bufs| && p.bufs[r].host == p.items[j].el;
    OutputIsFound(p, p.items[j].el, r);
  }

  lemma JudgeOther(p: Pipe, j: nat, seek: bool, kept: Option<El>)
    requires Hosted(p) && j < |p.items| && !IsHost(p, p.items[j].el)
    ensures var v := Judge(p, j, seek, kept);
            v.Leave? || v.Detach?
  {
    OutputIsForeign(p, p.items[j].el);
  }

  lemma BreakItemDecides(p: Pipe, j: nat, seek: bool, kept: Option<El>)
    requires Hosted(p) && j < |p.items| && Untouched(p, j)
    requires seek <==> NoHostBefore(p, j)
    ensures var (q, seek1) := BreakItem(p, j, seek, kept);
            && |q.items| == |p.items|
            && (seek1 <==> NoHostBefore(p, j + 1))
            && (IsHost(p, p.items[j].el) ==> (q.items[j].kept <==> Retained(p, j, kept)))
  {
    if IsHost(p, p.items[j].el) {
      JudgeHost(p, j, seek, kept);
      assert !NoHostBefore(p, j + 1);
    } else {
      JudgeOther(p, j, seek, kept);
    }
  }

  /** What an element outside the chain, or its last one, may still write to is not in the list. */
  lemma OutputIsForeign(p: Pipe, e: El)
    requires Hosted(p) && !IsHost(p, e)
    ensures e in p.output ==> FirstBuf(p.bufs, ById(p.output[e]), 0).None?
  {
    if e in p.output {
      forall r | 0 <= r < |p.bufs| ensures !Fits(p.bufs[r], ById(p.output[e])) {
        assert p.bufs[r].host != e;
      }
    }
  }

  // ---- All elements ------------------------------------------------------

  lemma SameShapeTrans(p: Pipe, q: Pipe, s: Pipe)
    requires SameShape(p, q) && SameShape(q, s)
    ensures SameShape(p, s)
  {
  }

  lemma SameHosts(p: Pipe, q: Pipe, e: El)
    requires SameShape(p, q)
    ensures IsHost(p, e) <==> IsHost(q, e)
  {
    if IsHost(p, e) {
      var r :| 0 <= r < |p.bufs| && p.bufs[r].host == e;
      assert q.bufs[r].host == e;
    }
    if IsHost(q, e) {
      var r :| 0 <= r < |q.bufs| && q.bufs[r].host == e;
      assert p.bufs[r].host == e;
    }
  }

  lemma SameBefore(p: Pipe, q: Pipe, j: nat)
    requires SameShape(p, q) && j <= |p.items|
    ensures NoHostBefore(p, j) <==> NoHostBefore(q, j)
  {
    forall k | 0 <= k < j ensures IsHost(p, p.items[k].el) <==> IsHost(q, q.items[k].el) {
      SameHosts(p, q, p.items[k].el);
    }
  }

  ghost predicate Breaking(p: Pipe, j: nat, seek: bool, kept: Option<El>) {
    && Hosted(p) && Paired(p) && j <= |p.items| && Untouched(p, j)
    && DecidedUpTo(p, j, kept)
    && (seek <==> NoHostBefore(p, j))
  }

  lemma StillUntouched(p: Pipe, q: Pipe, j: nat)
    requires SameShape(p, q) && OthersSame(p, q, j) && Untouched(p, j)
    ensures Untouched(q, j + 1)
  {
    forall k | j + 1 <= k < |q.items| && IsHost(q, q.items[k].el) ensures q.items[k].linked {
      SameHosts(p, q, q.items[k].el);
    }
  }

  lemma StillDecided(p: Pipe, q: Pipe, j: nat, kept: Option<El>)
    requires SameShape(p, q) && OthersSame(p, q, j) && j < |p.items| && DecidedUpTo(p, j, kept)
    requires IsHost(p, p.items[j].el) ==> (q.items[j].kept <==> Retained(p, j, kept))
    ensures DecidedUpTo(q, j + 1, kept)
  {
    forall k | 0 <= k < j + 1 && IsHost(q, q.items[k].el)
      ensures q.items[k].kept <==> Retained(q, k, kept)
    {
      SameHosts(p, q, q.items[k].el);
      SameBefore(p, q, k);
    }
  }

  lemma BreakItemKeeps(p: Pipe, j: nat, seek: bool, kept: Option<El>)
    requires Breaking(p, j, seek, kept) && j < |p.items|
    ensures var (q, seek1) := BreakItem(p, j, seek, kept);
            Breaking(q, j + 1, seek1, kept) && SameShape(p, q) && q.data == p.data
  {
    var (q, seek1) := BreakItem(p, j, seek, kept);
    BreakItemShape(p, j, seek, kept);
    SameShapeHosted(p, q);
    BreakItemPaired(p, j, seek, kept);
    BreakItemDecides(p, j, seek, kept);
    SameBefore(p, q, j + 1);
    StillUntouched(p, q, j);
    StillDecided(p, q, j, kept);
  }

  ghost predicate Broken(p: Pipe, q: Pipe, kept: Option<El>) {
    SameShape(p, q) && q.data == p.data && Hosted(q) && Paired(q) && DecidedUpTo(q, |q.items|, kept)
  }

  lemma {:induction false} BreakKeeps(p: Pipe, j: nat, seek: bool, kept: Option<El>)
    requires Breaking(p, j, seek, kept)
    ensures Broken(p, BreakFrom(p, j, seek, kept), kept)
    decreases |p.items| - j, 1
  {
    if j < |p.items| {
      BreakItemKeeps(p, j, seek, kept);
      BreakRest(p, j, seek, kept, BreakItem(p, j, seek, kept).0, BreakItem(p, j, seek, kept).1);
    } else {
      MarkShapeSelf(p);
    }
  }

  lemma {:induction false} BreakRest(p: Pipe, j: nat, seek: bool, kept: Option<El>, p1: Pipe, seek1: bool)
    requires j < |p.items| && (p1, seek1) == BreakItem(p, j, seek, kept)
    requires Breaking(p1, j + 1, seek1, kept) && SameShape(p, p1) && p1.data == p.data
    ensures Broken(p, BreakFrom(p, j, seek, kept), kept)
    decreases |p.items| - j, 0
  {
    BreakKeeps(p1, j + 1, seek1, kept);
    BrokenTrans(p, p1, BreakFrom(p1, j + 1, seek1, kept), kept);
  }

  lemma MarkShapeSelf(p: Pipe)
    ensures SameShape(p, p)
  {
  }

  lemma BrokenTrans(p: Pipe, p1: Pipe, q: Pipe, kept: Option<El>)
    requires SameShape(p, p1) && p1.data == p.data && Broken(p1, q, kept)
    ensures Broken(p, q, kept)
  {
    SameShapeTrans(p, p1, q);
  }

  // ---- Emptying what is not kept -----------------------------------------

  ghost predicate SameKept(p: Pipe, q: Pipe) {
    |p.bufs| == |q.bufs| && forall r | 0 <= r < |p.bufs| :: p.bufs[r].kept == q.bufs[r].kept
  }

  lemma {:induction false} ResetKeeps(p: Pipe, r: nat)
    requires Numbered(p)
    ensures var q := ResetFrom(p, r);
            SameShape(p, q) && q.items == p.items && SameKept(p, q)
    ensures var q := ResetFrom(p, r);
            forall s | 0 <= s < |p.bufs| && p.bufs[s].kept && p.bufs[s].id in p.data ::
              p.bufs[s].id in q.data && q.data[p.bufs[s].id] == p.data[p.bufs[s].id]
    decreases |p.bufs| - r
  {
    if r < |p.bufs| {
      if p.bufs[r].kept {
        ResetKeeps(p, r + 1);
      } else {
        var p1 := MarkBuf(p, r, false, false);
        ResetKeeps(p1.(data := p1.data[p.bufs[r].id := []]), r + 1);
      }
    }
  }

  /** From position `r` on every buffer that is not kept is free and emptied; others are left alone. */
  lemma {:induction false} ResetEmpties(p: Pipe, r: nat)
    requires Numbered(p)
    ensures var q := ResetFrom(p, r);
            |q.bufs| == |p.bufs| &&
            forall s | 0 <= s < |p.bufs| ::
              if s >= r && !p.bufs[s].kept then q.bufs[s] == p.bufs[s].(linked := false) && Empty(q, p.bufs[s].id)
              else q.bufs[s] == p.bufs[s] && (Empty(p, p.bufs[s].id) ==> Empty(q, p.bufs[s].id))
    decreases |p.bufs| - r
  {
    if r < |p.bufs| {
      if p.bufs[r].kept {
        ResetEmpties(p, r + 1);
      } else {
        var p1 := MarkBuf(p, r, false, false);
        ResetEmpties(p1.(data := p1.data[p.bufs[r].id := []]), r + 1);
      }
    }
  }

  lemma {:induction false} BreakShape(p: Pipe, j: nat, seek: bool, kept: Option<El>)
    ensures SameShape(p, BreakFrom(p, j, seek, kept))
    decreases |p.items| - j
  {
    if j < |p.items| {
      var (p1, seek1) := BreakItem(p, j, seek, kept);
      BreakItemShape(p, j, seek, kept);
      BreakShape(p1, j + 1, seek1, kept);
      SameShapeTrans(p, p1, BreakFrom(p1, j + 1, seek1, kept));
    } else {
      MarkShapeSelf(p);
    }
  }

  /** Breakup of any pipeline frees and empties every buffer that is not kept. */
  lemma BreakupEmpties(p: Pipe, kept: Option<El>)
    requires Numbered(p)
    ensures var q := Breakup(p, kept);
            forall r | 0 <= r < |q.bufs| && !q.bufs[r].kept :: !q.bufs[r].linked && Empty(q, q.bufs[r].id)
  {
    BreakShape(p, 0, true, kept);
    ResetEmpties(BreakFrom(p, 0, true, kept), 0);
  }

  /** Breakup of a freshly linked pipeline: exactly the first registered element of the chain that
      has an output and the one the caller named are kept, each with its buffer and what is in it;
      every other buffer is free and empty; the bookkeeping that relinking relies on holds. */
  lemma BreakupKeeps(p: Pipe, els: seq<El>, kept: Option<El>)
    requires FreshlyLinked(p, els)
    ensures var q := Breakup(p, kept);
            SameShape(p, q) && Hosted(q) && Paired(q) && !q.linked && DecidedUpTo(q, |q.items|, kept)
    ensures var q := Breakup(p, kept);
            forall r | 0 <= r < |q.bufs| && q.bufs[r].kept && q.bufs[r].id in p.data ::
              q.bufs[r].id in q.data && q.data[q.bufs[r].id] == p.data[q.bufs[r].id]
    ensures var q := Breakup(p, kept);
            forall r | 0 <= r < |q.bufs| && !q.bufs[r].kept :: !q.bufs[r].linked && Empty(q, q.bufs[r].id)
  {
    forall k | 0 <= k < |p.items| && IsHost(p, p.items[k].el) ensures p.items[k].linked {
      var r :| 0 <= r < |p.bufs| && p.bufs[r].host == p.items[k].el;
      assert els[r] in els;
    }
    assert Breaking(p, 0, true, kept);
    BreakKeeps(p, 0, true, kept);
    var b := BreakFrom(p, 0, true, kept);
    var q := Breakup(p, kept);
    ResetKeeps(b, 0);
    BreakupEmpties(p, kept);
    SameShapeTrans(p, b, q);
    SameShapeHosted(p, q);
    forall k | 0 <= k < |q.items| && IsHost(q, q.items[k].el) ensures q.items[k].kept <==> Retained(q, k, kept) {
      SameHosts(b, q, q.items[k].el);
      SameBefore(b, q, k);
    }
  }
}
