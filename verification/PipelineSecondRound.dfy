/** Why a second round of breakup and relink can go wrong: a buffer that changes hands keeps the
    name of the element it was made for, so relinking takes it for the buffer that element kept. */
module PipelineSecondRound {
  import opened Basics
  import opened PipelineLinks
  import opened PipelineChain
  import opened PipelineDeal
  import opened PipelineRelink

  function Four(a: (bool, bool), b: (bool, bool), c: (bool, bool), d: (bool, bool)): seq<Item> {
    [Item(0, "a", a.0, a.1), Item(1, "b", b.0, b.1), Item(2, "c", c.0, c.1), Item(3, "d", d.0, d.1)]
  }

  const On := (true, false)
  const Kept := (true, true)
  const Off := (false, false)
  const OffKept := (false, true)

  /** Four registered elements. */
  const Start: Pipe := Pipe(Four(On, On, On, On), [], map[], map[], false, 0, map[], [])

  const Linked: Pipe := Pipe(
    Four(Kept, Kept, Kept, On), [Buf(0, 0, true, true), Buf(1, 1, true, true)],
    map[1 := 0, 2 := 1], map[0 := 0, 1 := 1], true, 2, map[0 := [], 1 := []], [])

  /** a keeps buffer 0; buffer 1, made for b, is free. */
  const Broken: Pipe := Linked.(
    items := Four(OffKept, Off, Off, Off), bufs := [Buf(0, 0, true, true), Buf(1, 1, false, false)], linked := false)

  /** d writes to buffer 1 now, and b to the new buffer 2. */
  const Relinked: Pipe := Pipe(
    Four(OffKept, On, On, On), [Buf(0, 0, true, true), Buf(1, 1, true, false), Buf(2, 1, true, false)],
    map[1 := 1, 2 := 2], map[0 := 0, 1 := 2, 3 := 1], false, 3, map[0 := [], 1 := [], 2 := []], [])

  /** b keeps buffer 2, but the first buffer with its name is buffer 1. */
  const BrokenAgain: Pipe := Relinked.(
    items := Four(OffKept, OffKept, Off, Off),
    bufs := [Buf(0, 0, true, true), Buf(1, 1, false, false), Buf(2, 1, true, true)])

  predicate Named(items: seq<Item>) {
    |items| == 4 && items[0].tag == "a" && items[1].tag == "b" && items[2].tag == "c" && items[3].tag == "d"
  }

  lemma Tags(items: seq<Item>)
    requires Named(items)
    ensures FirstTag(items, "a", 0) == Some(0) && FirstTag(items, "b", 0) == Some(1)
    ensures FirstTag(items, "c", 0) == Some(2) && FirstTag(items, "d", 0) == Some(3)
  {
  }

  lemma LinkChain()
    ensures Link(Start, ["a", "b", "c"]) == (Linked, true)
  {
    var p1 := LinkStep(Start, 0, false, None);
    assert p1 == Pipe(Four(Kept, On, On, On), [Buf(0, 0, true, true)], map[], map[0 := 0], false, 1, map[0 := []], []);
    var p2 := LinkStep(p1, 1, false, Some(0));
    assert p2 == Linked.(items := Four(Kept, Kept, On, On), input := map[1 := 0], linked := false);
    var p3 := LinkStep(p2, 2, true, Some(1));
    assert p3 == Linked.(linked := false);
    ThreeLinks(Start, p1, p2, p3, 0, 1);
  }

  lemma ThreeLinks(p: Pipe, p1: Pipe, p2: Pipe, p3: Pipe, u: Rb, v: Rb)
    requires Named(p.items) && Named(p1.items) && Named(p2.items) && !p.linked && p.next == u && p1.next == v
    requires p1 == LinkStep(p, 0, false, None) && p2 == LinkStep(p1, 1, false, Some(u)) && p3 == LinkStep(p2, 2, true, Some(v))
    ensures Link(p, ["a", "b", "c"]) == (p3.(linked := true), true)
  {
    var tags := ["a", "b", "c"];
    Tags(p.items);
    Tags(p1.items);
    Tags(p2.items);
    assert LinkFrom(p3, tags, 3, Some(v)) == (p3.(linked := true), true);
    assert LinkFrom(p2, tags, 2, Some(v)) == (p3.(linked := true), true);
    assert LinkFrom(p1, tags, 1, Some(u)) == (p3.(linked := true), true);
  }

  // ---- Single steps between given states ---------------------------------

  ghost predicate ItemSet(a: seq<Item>, b: seq<Item>, j: nat, linked: bool, kept: bool) {
    && |a| == |b| && j < |a| && b[j] == a[j].(linked := linked, kept := kept)
    && forall k | 0 <= k < |a| && k != j :: b[k] == a[k]
  }

  ghost predicate BufSet(a: seq<Buf>, b: seq<Buf>, r: nat, linked: bool, kept: bool) {
    && |a| == |b| && r < |a| && b[r] == a[r].(linked := linked, kept := kept)
    && forall k | 0 <= k < |a| && k != r :: b[k] == a[k]
  }

  lemma Decided(p: Pipe, q: Pipe, j: nat, seek: bool, keep: Option<El>, r: nat, kept: bool)
    requires r < |p.bufs| && ItemSet(p.items, q.items, j, false, kept)
    requires BufSet(p.bufs, q.bufs, r, p.bufs[r].linked, kept)
    requires q == p.(items := q.items, bufs := q.bufs)
    requires Judge(p, j, seek, keep) == if kept then Retain(r) else Release(r)
    ensures BreakItem(p, j, seek, keep) == (q, seek && !kept)
  {
    assert q.items == p.items[j := p.items[j].(linked := false, kept := kept)];
    assert q.bufs == p.bufs[r := p.bufs[r].(kept := kept)];
  }

  lemma Detached(p: Pipe, q: Pipe, j: nat, keep: Option<El>)
    requires ItemSet(p.items, q.items, j, false, false) && q == p.(items := q.items)
    requires Judge(p, j, false, keep) == Detach
    ensures BreakItem(p, j, false, keep) == (q, false)
  {
    assert q.items == p.items[j := p.items[j].(linked := false, kept := false)];
  }

  /** Relinking an element that is not the last, with a buffer that is there. */
  lemma Reused(p: Pipe, q: Pipe, j: nat, rb: Option<Rb>, r: nat)
    requires j < |p.items| && ItemSet(p.items, q.items, j, true, p.items[j].kept)
    requires r < |p.bufs| && BufSet(p.bufs, q.bufs, r, true, p.bufs[r].kept)
    requires q.output == p.output[p.items[j].el := p.bufs[r].id]
    requires q.input == if rb.None? then p.input else p.input[p.items[j].el := rb.value]
    requires q == p.(items := q.items, bufs := q.bufs, input := q.input, output := q.output)
    requires Pick(p, j) == Some(r)
    ensures RelinkStep(p, j, false, rb) == (q, Some(p.bufs[r].id))
  {
    assert q.items == p.items[j := p.items[j].(linked := true)];
    assert q.bufs == p.bufs[r := p.bufs[r].(linked := true)];
  }

  /** The same with a buffer that has to be made. */
  lemma Added(p: Pipe, q: Pipe, j: nat, rb: Rb)
    requires j < |p.items| && ItemSet(p.items, q.items, j, true, p.items[j].kept)
    requires q.bufs == p.bufs + [Buf(p.next, p.items[j].el, true, false)]
    requires q.output == p.output[p.items[j].el := p.next] && q.input == p.input[p.items[j].el := rb]
    requires q.next == p.next + 1 && q.data == p.data[p.next := []]
    requires q.linked == p.linked && q.destroyed == p.destroyed
    requires Pick(p, j).None?
    ensures RelinkStep(p, j, false, Some(rb)) == (q, Some(p.next))
  {
    assert q.items == p.items[j := p.items[j].(linked := true)];
  }

  /** Relinking the last element when nothing is free. */
  lemma Ended(p: Pipe, q: Pipe, j: nat, rb: Rb)
    requires j < |p.items| && ItemSet(p.items, q.items, j, true, p.items[j].kept)
    requires q == p.(items := q.items, input := p.input[p.items[j].el := rb])
    requires Pick(p, j).None?
    ensures RelinkStep(p, j, true, Some(rb)) == (q, Some(rb))
  {
    assert q.items == p.items[j := p.items[j].(linked := true)];
  }

  // ---- The run -----------------------------------------------------------

  /** Breaking up four elements, one after the other; the second at the latest ends the search. */
  lemma FourBreaks(p: Pipe, p1: Pipe, p2: Pipe, p3: Pipe, p4: Pipe, seek: bool, keep: Option<El>)
    requires |p.items| == |p1.items| == |p2.items| == |p3.items| == |p4.items| == 4
    requires BreakItem(p, 0, true, keep) == (p1, seek) && BreakItem(p1, 1, seek, keep) == (p2, false)
    requires BreakItem(p2, 2, false, keep) == (p3, false) && BreakItem(p3, 3, false, keep) == (p4, false)
    ensures BreakFrom(p, 0, true, keep) == p4
  {
    assert BreakFrom(p4, 4, false, keep) == p4;
    assert BreakFrom(p3, 3, false, keep) == p4;
    assert BreakFrom(p2, 2, false, keep) == p4;
    assert BreakFrom(p1, 1, seek, keep) == p4;
  }

  const FirstKept: Pipe := Linked.(items := Four(OffKept, Kept, Kept, On))

  const SecondFreed: Pipe := Linked.(
    items := Four(OffKept, Off, Kept, On), bufs := [Buf(0, 0, true, true), Buf(1, 1, true, false)])

  lemma FirstBreakupAB()
    ensures BreakItem(Linked, 0, true, None) == (FirstKept, false)
    ensures BreakItem(FirstKept, 1, false, None) == (SecondFreed, false)
  {
    assert FirstBuf(Linked.bufs, ById(0), 0) == Some(0);
    Decided(Linked, FirstKept, 0, true, None, 0, true);
    assert FirstBuf(FirstKept.bufs, ById(1), 0) == Some(1);
    Decided(FirstKept, SecondFreed, 1, false, None, 1, false);
  }

  lemma FirstBreakup()
    ensures Breakup(Linked, None) == Broken
  {
    FirstBreakupAB();
    var p3 := SecondFreed.(items := Four(OffKept, Off, Off, On));
    Detached(SecondFreed, p3, 2, None);
    var p4 := SecondFreed.(items := Four(OffKept, Off, Off, Off));
    Detached(p3, p4, 3, None);
    FourBreaks(Linked, FirstKept, SecondFreed, p3, p4, false, None);
    ResetMiddle(p4);
  }

  /** Buffer 1 is the only one given up. */
  lemma ResetMiddle(p: Pipe)
    requires |p.bufs| == 2 || (|p.bufs| == 3 && p.bufs[2].kept)
    requires p.bufs[0].kept && !p.bufs[1].kept && p.bufs[1].id == 1 && 1 in p.data && p.data[1] == []
    ensures ResetFrom(p, 0) == p.(bufs := p.bufs[1 := p.bufs[1].(linked := false)])
  {
    var q := p.(bufs := p.bufs[1 := p.bufs[1].(linked := false)]);
    assert q == MarkBuf(p, 1, false, false).(data := p.data[1 := []]);
    ResetNothing(q);
    assert ResetFrom(p, 1) == ResetFrom(q, 2);
    assert ResetFrom(p, 0) == ResetFrom(p, 1);
  }

  lemma ResetNothing(q: Pipe)
    requires |q.bufs| == 2 || (|q.bufs| == 3 && q.bufs[2].kept)
    ensures ResetFrom(q, 2) == q
  {
    assert ResetFrom(q, 3) == q;
  }

  /** What d, b and c do, one after the other. */
  lemma ThreeSteps(p: Pipe, p1: Pipe, p2: Pipe, p3: Pipe, u: Rb, v: Rb)
    requires Named(p.items) && Named(p1.items) && Named(p2.items) && !p.linked
    requires RelinkStep(p, 3, false, None) == (p1, Some(u))
    requires RelinkStep(p1, 1, false, Some(u)) == (p2, Some(v))
    requires RelinkStep(p2, 2, true, Some(v)) == (p3, Some(v))
    ensures Relink(p, ["d", "b", "c"]) == (p3, true)
  {
    var tags := ["d", "b", "c"];
    Tags(p.items);
    Tags(p1.items);
    Tags(p2.items);
    assert RelinkFrom(p3, tags, 3, Some(v)) == (p3, true);
    assert RelinkFrom(p2, tags, 2, Some(v)) == (p3, true);
    assert RelinkFrom(p1, tags, 1, Some(u)) == (p3, true);
  }

  /** d has taken buffer 1. */
  const TakenOver: Pipe := Broken.(
    items := Four(OffKept, Off, Off, On), bufs := [Buf(0, 0, true, true), Buf(1, 1, true, false)],
    output := map[0 := 0, 1 := 1, 3 := 1])

  lemma FirstRelinkD()
    ensures RelinkStep(Broken, 3, false, None) == (TakenOver, Some(1))
  {
    assert FirstBuf(Broken.bufs, Unused, 0) == Some(1);
    Reused(Broken, TakenOver, 3, None, 1);
  }

  /** b has been given buffer 2. */
  const Joined: Pipe := Relinked.(items := Four(OffKept, On, Off, On), input := map[1 := 1, 2 := 1])

  lemma FirstRelinkB()
    ensures RelinkStep(TakenOver, 1, false, Some(1)) == (Joined, Some(2))
  {
    assert FirstBuf(TakenOver.bufs, Unused, 0) == None;
    assert Joined.bufs == TakenOver.bufs + [Buf(2, 1, true, false)];
    Added(TakenOver, Joined, 1, 1);
  }

  lemma FirstRelink()
    ensures Relink(Broken, ["d", "b", "c"]) == (Relinked, true)
  {
    FirstRelinkD();
    FirstRelinkB();
    assert FirstBuf(Joined.bufs, Unused, 0) == None;
    Ended(Joined, Relinked, 2, 2);
    ThreeSteps(Broken, TakenOver, Joined, Relinked, 1, 2);
  }

  lemma SecondBreakup()
    ensures Breakup(Relinked, Some(1)) == BrokenAgain
  {
    var p := Relinked;
    assert BreakItem(p, 0, true, Some(1)) == (p, true);
    assert FirstBuf(p.bufs, ById(2), 0) == Some(2);
    var p2 := p.(items := Four(OffKept, OffKept, On, On), bufs := [p.bufs[0], p.bufs[1], Buf(2, 1, true, true)]);
    Decided(p, p2, 1, true, Some(1), 2, true);
    var p3 := p2.(items := Four(OffKept, OffKept, Off, On));
    Detached(p2, p3, 2, Some(1));
    assert FirstBuf(p3.bufs, ById(1), 0) == Some(1);
    var p4 := p2.(items := Four(OffKept, OffKept, Off, Off));
    Decided(p3, p4, 3, false, Some(1), 1, false);
    FourBreaks(p, p, p2, p3, p4, true, Some(1));
    ResetMiddle(p4);
  }

  /** d writes to buffer 1 again, and so does b. */
  const Crossed: Pipe := BrokenAgain.(
    items := Four(OffKept, Kept, On, On),
    bufs := [Buf(0, 0, true, true), Buf(1, 1, true, false), Buf(2, 1, true, true)],
    input := map[1 := 1, 2 := 1], output := map[0 := 0, 1 := 1, 3 := 1])

  const TakenAgain: Pipe := BrokenAgain.(items := Four(OffKept, OffKept, Off, On), bufs := Crossed.bufs)

  const BothWrite: Pipe := TakenAgain.(items := Four(OffKept, Kept, Off, On), output := Crossed.output)

  lemma SecondRelinkD()
    ensures RelinkStep(BrokenAgain, 3, false, None) == (TakenAgain, Some(1))
  {
    assert FirstBuf(BrokenAgain.bufs, Unused, 0) == Some(1);
    Reused(BrokenAgain, TakenAgain, 3, None, 1);
  }

  lemma SecondRelinkB()
    ensures RelinkStep(TakenAgain, 1, false, Some(1)) == (BothWrite, Some(1))
  {
    assert FirstBuf(TakenAgain.bufs, ByHost(1), 0) == Some(1);
    Reused(TakenAgain, BothWrite, 1, Some(1), 1);
  }

  lemma SecondRelink()
    ensures Relink(BrokenAgain, ["d", "b", "c"]) == (Crossed, true)
  {
    SecondRelinkD();
    SecondRelinkB();
    assert FirstBuf(BothWrite.bufs, Unused, 0) == None;
    Ended(BothWrite, Crossed, 2, 1);
    ThreeSteps(BrokenAgain, TakenAgain, BothWrite, Crossed, 1, 1);
  }

  /** Linked once, broken up and relinked, then broken up with b kept and relinked again. */
  lemma SecondRound()
    ensures var p1 := Link(Start, ["a", "b", "c"]).0;
            var p2 := Relink(Breakup(p1, None), ["d", "b", "c"]).0;
            p2 == Relinked && Breakup(p2, Some(1)) == BrokenAgain &&
            Relink(BrokenAgain, ["d", "b", "c"]) == (Crossed, true)
  {
    LinkChain();
    FirstBreakup();
    FirstRelink();
    SecondBreakup();
    SecondRelink();
  }

  /** So b, which was kept and had buffer 2, now reads and writes buffer 1, and d writes it too: no
      wiring is left, and the condition of RelinkWiresExactly failed in the state before. */
  lemma SecondRelinkCrossesBuffers()
    ensures Lookup(Relinked.output, 1) == Some(2)
    ensures Lookup(Crossed.output, 3) == Some(1) && Lookup(Crossed.input, 1) == Some(1) && Lookup(Crossed.output, 1) == Some(1)
    ensures !EnoughAhead(DealOf(BrokenAgain, ["d", "b", "c"], [3, 1, 2])) && !exists us :: Wired(Crossed, [3, 1, 2], us)
  {
    SecondRelink();
    AgainNames();
    var els := [3, 1, 2];
    assert els[0] == 3 && els[1] == 1;
    SharedOutputIsClash(BrokenAgain, ["d", "b", "c"], els, 0, 1);
  }

  lemma AgainNames()
    ensures Names(BrokenAgain.items, ["d", "b", "c"], [3, 1, 2]) && Numbered(BrokenAgain)
  {
    Tags(BrokenAgain.items);
  }
}
