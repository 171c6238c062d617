/** No ring buffer of a pipeline is lost, listed twice or destroyed twice. */
module PipelineLedger {
  import opened Basics
  import opened PipelineLinks

  /** How often a buffer is listed or was destroyed. */
  function Times(p: Pipe, id: Rb): nat {
    multiset(Ids(p.bufs))[id] + multiset(p.destroyed)[id]
  }

  /** Every buffer ever created is listed exactly once or was destroyed exactly once. */
  ghost predicate Ledger(p: Pipe) {
    forall id: Rb :: Times(p, id) == if id < p.next then 1 else 0
  }

  /** Nothing was created, listed, dropped or destroyed. */
  ghost predicate SameBooks(p: Pipe, q: Pipe) {
    Ids(p.bufs) == Ids(q.bufs) && p.destroyed == q.destroyed && p.next == q.next
  }

  lemma SameBooksKeep(p: Pipe, q: Pipe)
    requires Ledger(p) && SameBooks(p, q)
    ensures Ledger(q)
  {
    forall id: Rb ensures Times(q, id) == Times(p, id) {
    }
  }

  lemma MarkBufBooks(p: Pipe, r: nat, linked: bool, kept: bool)
    requires r < |p.bufs|
    ensures SameBooks(p, MarkBuf(p, r, linked, kept))
  {
  }

  lemma CreateKeeps(p: Pipe, host: El, kept: bool)
    requires Ledger(p)
    ensures Ledger(Create(p, host, kept))
  {
    var q := Create(p, host, kept);
    assert q.bufs[..|q.bufs| - 1] == p.bufs;
    assert Ids(q.bufs) == Ids(p.bufs) + [p.next];
    forall id: Rb ensures Times(q, id) == Times(p, id) + if id == p.next then 1 else 0 {
    }
  }

  /** Unlinking a linked pipeline leaves no buffer listed, and each that was has been destroyed,
      once. */
  lemma UnlinkKeeps(p: Pipe)
    requires Ledger(p)
    ensures Ledger(Unlink(p))
    ensures p.linked ==> Unlink(p).bufs == []
    ensures p.linked ==> forall r | 0 <= r < |p.bufs| :: multiset(Unlink(p).destroyed)[p.bufs[r].id] == 1
  {
    var q := Unlink(p);
    if p.linked {
      forall r | 0 <= r < |p.bufs| ensures multiset(q.destroyed)[p.bufs[r].id] == 1 {
        var ids := Ids(p.bufs);
        assert ids[r] == p.bufs[r].id && ids[r] in multiset(ids);
        assert Times(p, ids[r]) == 1;
        assert multiset(q.destroyed) == multiset(p.destroyed) + multiset(ids);
      }
    }
    if p.linked {
      forall id: Rb ensures Times(q, id) == Times(p, id) {
        assert Ids([]) == [];
      }
    }
  }

  lemma LinkStepKeeps(p: Pipe, j: nat, last: bool, rb: Option<Rb>)
    requires Ledger(p) && j < |p.items|
    ensures Ledger(LinkStep(p, j, last, rb))
  {
    var e := p.items[j].el;
    var p1 := SetIn(Mark(p, j, true, true), e, rb);
    SameBooksKeep(p, p1);
    CreateKeeps(p1, e, true);
    SameBooksKeep(Create(p1, e, true), SetOut(Create(p1, e, true), e, Some(p.next)));
  }

  lemma {:induction false} LinkKeeps(p: Pipe, tags: seq<string>, i: nat, rb: Option<Rb>)
    requires Ledger(p)
    ensures Ledger(LinkFrom(p, tags, i, rb).0)
    decreases |tags| - i
  {
    if i >= |tags| {
      SameBooksKeep(p, p.(linked := true));
    } else {
      var j := FirstTag(p.items, tags[i], 0);
      if j.Some? {
        var last := i == |tags| - 1;
        LinkStepKeeps(p, j.value, last, rb);
        LinkKeeps(LinkStep(p, j.value, last, rb), tags, i + 1, if last then rb else Some(p.next));
      }
    }
  }

  lemma MarkBothBooks(p: Pipe, j: nat, r: nat, kept: bool)
    requires j < |p.items| && r < |p.bufs|
    ensures SameBooks(p, MarkBoth(p, j, r, kept))
  {
    MarkBufBooks(Mark(p, j, false, kept), r, p.bufs[r].linked, kept);
  }

  lemma BreakItemBooks(p: Pipe, j: nat, seek: bool, kept: Option<El>)
    requires j < |p.items|
    ensures SameBooks(p, BreakItem(p, j, seek, kept).0)
  {
    var v := Judge(p, j, seek, kept);
    if v.Release? || v.Retain? {
      MarkBothBooks(p, j, v.r, v.Retain?);
    }
  }

  lemma {:induction false} BreakBooks(p: Pipe, j: nat, seek: bool, kept: Option<El>)
    ensures SameBooks(p, BreakFrom(p, j, seek, kept))
    decreases |p.items| - j
  {
    if j < |p.items| {
      var (p1, seek1) := BreakItem(p, j, seek, kept);
      BreakItemBooks(p, j, seek, kept);
      BreakBooks(p1, j + 1, seek1, kept);
    }
  }

  lemma {:induction false} ResetBooks(p: Pipe, r: nat)
    ensures SameBooks(p, ResetFrom(p, r))
    decreases |p.bufs| - r
  {
    if r < |p.bufs| {
      var p1 := MarkBuf(p, r, false, false);
      MarkBufBooks(p, r, false, false);
      ResetBooks(if p.bufs[r].kept then p else p1.(data := p1.data[p.bufs[r].id := []]), r + 1);
    }
  }

  lemma RelinkStepKeeps(p: Pipe, j: nat, last: bool, rb: Option<Rb>)
    requires Ledger(p) && j < |p.items|
    ensures Ledger(RelinkStep(p, j, last, rb).0)
  {
    var it := p.items[j];
    var p1 := Mark(p, j, true, it.kept);
    SameBooksKeep(p, p1);
    var r := Pick(p, j);
    if r.Some? {
      MarkBufBooks(p1, r.value, true, p.bufs[r.value].kept);
      SameBooksKeep(p1, MarkBuf(p1, r.value, true, p.bufs[r.value].kept));
    } else {
      CreateKeeps(p1, it.el, false);
    }
    SameBooksKeep(Claim(p, j, last).0, RelinkStep(p, j, last, rb).0);
  }

  lemma {:induction false} RelinkKeeps(p: Pipe, tags: seq<string>, i: nat, rb: Option<Rb>)
    requires Ledger(p)
    ensures Ledger(RelinkFrom(p, tags, i, rb).0)
    decreases |tags| - i
  {
    if i < |tags| {
      var j := FirstTag(p.items, tags[i], 0);
      if j.Some? {
        RelinkStepKeeps(p, j.value, i == |tags| - 1, rb);
        var (p1, rb1) := RelinkStep(p, j.value, i == |tags| - 1, rb);
        RelinkKeeps(p1, tags, i + 1, rb1);
      }
    }
  }

  // ---- Any sequence of calls ---------------------------------------------

  datatype Op = DoLink(tags: seq<string>) | DoUnlink | DoBreakup(kept: Option<El>) | DoRelink(relinked: seq<string>)
              | DoWrite(id: Rb, bytes: seq<byte>)

  /** One call, or the elements changing what a buffer holds. */
  function Perform(p: Pipe, op: Op): Pipe {
    match op
    case DoLink(tags) => Link(p, tags).0
    case DoUnlink => Unlink(p)
    case DoBreakup(kept) => Breakup(p, kept)
    case DoRelink(tags) => Relink(p, tags).0
    case DoWrite(id, bytes) => p.(data := p.data[id := bytes])
  }

  function PerformAll(p: Pipe, ops: seq<Op>): Pipe {
    if ops == [] then p else Perform(PerformAll(p, ops[..|ops| - 1]), ops[|ops| - 1])
  }

  lemma PerformKeeps(p: Pipe, op: Op)
    requires Ledger(p)
    ensures Ledger(Perform(p, op))
  {
    match op
    case DoLink(tags) =>
      UnlinkKeeps(p);
      LinkKeeps(Unlink(p), tags, 0, None);
    case DoUnlink =>
      UnlinkKeeps(p);
    case DoBreakup(kept) =>
      BreakBooks(p, 0, true, kept);
      ResetBooks(BreakFrom(p, 0, true, kept), 0);
      SameBooksKeep(p, Breakup(p, kept));
    case DoRelink(tags) =>
      if !p.linked {
        RelinkKeeps(p, tags, 0, None);
      }
    case DoWrite(id, bytes) =>
      SameBooksKeep(p, Perform(p, op));
  }

  /** Whatever is linked, broken up, relinked and unlinked in whatever order, and with whatever
      tags (calls that fail half-way included), each buffer ever created is in rb_list exactly
      once or has been destroyed exactly once. */
  lemma {:induction false} BuffersAreConserved(items: seq<Item>, ops: seq<Op>)
    ensures Ledger(PerformAll(Pipe(items, [], map[], map[], false, 0, map[], []), ops))
    decreases |ops|
  {
    var p := Pipe(items, [], map[], map[], false, 0, map[], []);
    if ops == [] {
      forall id: Rb ensures Times(p, id) == 0 {
      }
    } else {
      BuffersAreConserved(items, ops[..|ops| - 1]);
      PerformKeeps(PerformAll(p, ops[..|ops| - 1]), ops[|ops| - 1]);
    }
  }
}
